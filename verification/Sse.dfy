/**
  The Server-Sent Events wire between the watch handlers and pgmctl: what the
  server prints (internal/control/handlers_watch.go) and what the client parses
  (internal/pgmctl/watch/sse.go), as defined by section 9.2 of the HTML Living
  Standard in the subset both sides use.
 */
module Sse {
  import opened Text

  datatype Frame = Frame(event: string, id: string, data: string)

  const EMPTY := Frame("", "", "")

  // ----- The parser

  /** The frame being collected and the frames already handed on. */
  datatype Parser = Parser(cur: Frame, out: seq<Frame>)

  predicate Pending(f: Frame)
  {
    f.event != "" || f.data != ""
  }

  /** What a line says once its terminator is trimmed. */
  datatype Line = Comment | Blank | SetEvent(v: string) | SetId(v: string) | SetData(v: string) | Unknown

  function Classify(line: string): (l: Line)
  {
    if ":" <= line then Comment
    else if line == "" then Blank
    else if "event:" <= line then SetEvent(TrimSpace(line[6..]))
    else if "id:" <= line then SetId(TrimSpace(line[3..]))
    else if "data:" <= line then SetData(TrimSpace(line[5..]))
    else Unknown
  }

  function Obey(p: Parser, l: Line): (q: Parser)
    ensures p.out <= q.out
  {
    match l
    case Comment => p
    case Blank => if Pending(p.cur) then Parser(EMPTY, p.out + [p.cur]) else p
    case SetEvent(v) => p.(cur := p.cur.(event := v))
    case SetId(v) => p.(cur := p.cur.(id := v))
    case SetData(v) => p.(cur := p.cur.(data := v))
    case Unknown => p
  }

  /** The effect of one line as read, terminator included. */
  function OnLine(p: Parser, raw: string): (q: Parser)
    ensures p.out <= q.out
  {
    Obey(p, Classify(TrimRight(raw, NEWLINES)))
  }

  function Feed(p: Parser, lines: seq<string>): (q: Parser)
    decreases lines
  {
    if lines == [] then p else Feed(OnLine(p, lines[0]), lines[1..])
  }

  /** How the byte stream ended: cleanly, or with a transport error. */
  datatype End = Eof | Broken

  /** The frames a whole connection yields.  A clean end hands on the frame in
      progress, an error drops it. */
  function Parse(bytes: string, end: End): (out: seq<Frame>)
  {
    var p := Feed(Parser(EMPTY, []), Lines(bytes));
    if end.Eof? && Pending(p.cur) then p.out + [p.cur] else p.out
  }

  /** parseSSE: reads line by line, changing the current frame in place. */
  method ParseSSE(bytes: string, end: End) returns (out: seq<Frame>)
    ensures out == Parse(bytes, end)
  {
    var cur, rest := EMPTY, bytes;
    out := [];
    while rest != ""
      invariant Feed(Parser(cur, out), Lines(rest)) == Feed(Parser(EMPTY, []), Lines(bytes))
      decreases |rest|
    {
      var n := LineEnd(rest);
      ghost var before := Parser(cur, out);
      var line := TrimRight(rest[..n], NEWLINES);
      if ":" <= line {
      } else if line == "" {
        if cur.event != "" || cur.data != "" {
          out := out + [cur];
          cur := EMPTY;
        }
      } else if "event:" <= line {
        cur := cur.(event := TrimSpace(line[6..]));
      } else if "id:" <= line {
        cur := cur.(id := TrimSpace(line[3..]));
      } else if "data:" <= line {
        cur := cur.(data := TrimSpace(line[5..]));
      }
      assert OnLine(before, rest[..n]) == Parser(cur, out);
      assert Lines(rest)[0] == rest[..n] && Lines(rest)[1..] == Lines(rest[n..]);
      rest := rest[n..];
    }
    if end.Eof? && (cur.event != "" || cur.data != "") {
      out := out + [cur];
    }
  }

  lemma {:induction false} FeedAppend(p: Parser, a: seq<string>, b: seq<string>)
    ensures Feed(p, a + b) == Feed(Feed(p, a), b)
    decreases a
  {
    if a == [] {
      assert a + b == b;
    } else {
      assert (a + b)[1..] == a[1..] + b;
      FeedAppend(OnLine(p, a[0]), a[1..], b);
    }
  }

  // ----- The printer

  /** What the server writes on a watch stream. */
  datatype Item = Event(frame: Frame) | Keepalive

  /** The three kinds of field, and what each is introduced by. */
  datatype Kind = EventLine | IdLine | DataLine

  function Key(k: Kind): (s: string)
    ensures |s| > 1
  {
    match k case EventLine => "event: " case IdLine => "id: " case DataLine => "data: "
  }

  function Field(key: string, value: string): (s: string)
  {
    key + value + "\n"
  }

  /** A frame up to, but without, the blank line that ends it. */
  function BodyLines(f: Frame): (ls: seq<string>)
  {
    [Field(Key(EventLine), f.event)] + (if f.id == "" then [] else [Field(Key(IdLine), f.id)]) + [Field(Key(DataLine), f.data)]
  }

  /** writeFrame and writeKeepalive, write by write; a gap marker and an error
      frame are frames without an id. */
  function PrintLines(item: Item): (ls: seq<string>)
  {
    match item
    case Keepalive => [":keepalive\n", "\n"]
    case Event(f) => BodyLines(f) + ["\n"]
  }

  function Print(item: Item): (s: string)
  {
    Join(PrintLines(item))
  }

  /** On the wire, byte for byte. */
  lemma {:induction false} PrintedText(f: Frame)
    ensures Print(Event(f)) ==
            "event: " + f.event + "\n" + (if f.id == "" then "" else "id: " + f.id + "\n") + ("data: " + f.data + "\n" + "\n")
    ensures Print(Keepalive) == ":keepalive\n" + "\n"
  {
    JoinAppend(BodyLines(f), ["\n"]);
    BodyIsHeadAndData(f);
    JoinAppend(Head(f), [Field(Key(DataLine), f.data)]);
    JoinAppend([Field(Key(EventLine), f.event)], [Field(Key(IdLine), f.id)]);
    JoinOne(Field(Key(EventLine), f.event));
    JoinOne(Field(Key(IdLine), f.id));
    JoinOne(Field(Key(DataLine), f.data));
    JoinOne("\n");
    JoinAppend([":keepalive\n"], ["\n"]);
    JoinOne(":keepalive\n");
  }

  function PrintAll(items: seq<Item>): (s: string)
  {
    if items == [] then "" else Print(items[0]) + PrintAll(items[1..])
  }

  function Frames(items: seq<Item>): (fs: seq<Frame>)
  {
    if items == [] then []
    else if items[0].Event? then [items[0].frame] + Frames(items[1..])
    else Frames(items[1..])
  }

  predicate Value(s: string)
  {
    '\n' !in s && Trimmed(s)
  }

  /** The frames the framing can carry: values on one line and trimmed, not
      both empty. */
  predicate Printable(f: Frame)
  {
    Value(f.event) && Value(f.id) && Value(f.data) && Pending(f)
  }

  ghost predicate AllPrintable(items: seq<Item>)
  {
    forall i :: i in items && i.Event? ==> Printable(i.frame)
  }

  // ----- One frame over the wire

  lemma {:induction false} FieldLine(key: string, value: string)
    requires '\n' !in key && '\n' !in value
    ensures IsLine(Field(key, value))
  {
    assert Field(key, value)[..|Field(key, value)| - 1] == key + value;
  }

  /** What is left of a printed field line once its terminator is trimmed. */
  lemma {:induction false} FieldTrim(key: string, value: string)
    requires key != "" && key[|key| - 1] !in NEWLINES && Value(value)
    ensures TrimRight(Field(key, value), NEWLINES) == key + value
  {
    TrimRightKeeps(key + value, "\n", NEWLINES);
  }

  lemma {:induction false} NotPrefix(a: string, b: string)
    requires a != "" && b != "" && a[0] != b[0]
    ensures !(a <= b)
  {}

  /** What such a line says, and what that does to a frame. */
  function Says(k: Kind, v: string): (l: Line)
  {
    match k case EventLine => SetEvent(v) case IdLine => SetId(v) case DataLine => SetData(v)
  }

  function Put(k: Kind, f: Frame, v: string): (g: Frame)
  {
    match k case EventLine => f.(event := v) case IdLine => f.(id := v) case DataLine => f.(data := v)
  }

  function Get(k: Kind, f: Frame): (v: string)
  {
    match k case EventLine => f.event case IdLine => f.id case DataLine => f.data
  }

  lemma {:induction false} KeyShape(k: Kind)
    ensures Key(k)[|Key(k)| - 1] == ' ' && '\n' !in Key(k) && '\r' !in Key(k)
  {}

  /** The key without its blank tells the field. */
  lemma {:induction false} ReadRest(k: Kind, line: string, rest: string)
    requires line == Key(k)[..|Key(k)| - 1] + rest
    ensures Classify(line) == Says(k, TrimSpace(rest))
  {
    match k
    case EventLine => ReadEventRest(line, "event:", rest);
    case IdLine => ReadIdRest(line, "id:", rest);
    case DataLine => ReadDataRest(line, "data:", rest);
  }

  lemma {:induction false} ReadEventRest(line: string, key: string, rest: string)
    requires key == "event:" && line == key + rest
    ensures Classify(line) == SetEvent(TrimSpace(rest))
  {
    assert line[..6] == key && line[6..] == rest;
    NotPrefix(":", line);
  }

  lemma {:induction false} ReadIdRest(line: string, key: string, rest: string)
    requires key == "id:" && line == key + rest
    ensures Classify(line) == SetId(TrimSpace(rest))
  {
    assert line[..3] == key && line[3..] == rest;
    NotPrefix(":", line);
    NotPrefix("event:", line);
  }

  lemma {:induction false} ReadDataRest(line: string, key: string, rest: string)
    requires key == "data:" && line == key + rest
    ensures Classify(line) == SetData(TrimSpace(rest))
  {
    assert line[..5] == key && line[5..] == rest;
    NotPrefix(":", line);
    NotPrefix("event:", line);
    NotPrefix("id:", line);
  }

  /** A key and a value: the blank between them belongs to neither. */
  lemma {:induction false} AfterKey(k: Kind, y: string)
    ensures Key(k) + y == Key(k)[..|Key(k)| - 1] + (" " + y)
  {
    KeyShape(k);
  }

  lemma {:induction false} OnField(k: Kind, p: Parser, v: string)
    requires Value(v)
    ensures OnLine(p, Field(Key(k), v)) == p.(cur := Put(k, p.cur, v))
  {
    KeyShape(k);
    FieldTrim(Key(k), v);
    AfterKey(k, v);
    ReadRest(k, Key(k) + v, " " + v);
    TrimSpaceAfterBlank(v);
  }

  lemma {:induction false} PrintedLines(item: Item)
    requires item.Event? ==> Printable(item.frame)
    ensures AllLines(PrintLines(item))
    ensures Lines(Print(item)) == PrintLines(item) && Terminated(Print(item))
  {
    PrintsLines(item);
    LinesOfLines(PrintLines(item), "");
    assert Join(PrintLines(item)) + "" == Join(PrintLines(item));
    JoinEnds(PrintLines(item));
  }

  lemma {:induction false} PrintsLines(item: Item)
    requires item.Event? ==> Printable(item.frame)
    ensures AllLines(PrintLines(item))
  {
    match item {
      case Keepalive =>
      case Event(f) =>
        FieldLine(Key(EventLine), f.event);
        FieldLine(Key(IdLine), f.id);
        FieldLine(Key(DataLine), f.data);
    }
  }

  lemma {:induction false} FeedTwo(p: Parser, a: string, b: string)
    ensures Feed(p, [a] + [b]) == OnLine(OnLine(p, a), b)
  {
    FeedAppend(p, [a], [b]);
  }

  /** The lines in front of the data line. */
  function Head(f: Frame): (ls: seq<string>)
  {
    if f.id == "" then [Field(Key(EventLine), f.event)] else [Field(Key(EventLine), f.event)] + [Field(Key(IdLine), f.id)]
  }

  lemma {:induction false} FeedHead(f: Frame, out: seq<Frame>)
    requires Printable(f)
    ensures Feed(Parser(EMPTY, out), Head(f)) == Parser(Frame(f.event, f.id, ""), out)
  {
    var p := Parser(EMPTY, out);
    OnField(EventLine, p, f.event);
    if f.id != "" {
      OnField(IdLine, OnLine(p, Field(Key(EventLine), f.event)), f.id);
      FeedTwo(p, Field(Key(EventLine), f.event), Field(Key(IdLine), f.id));
    }
  }

  lemma {:induction false} BodyIsHeadAndData(f: Frame)
    ensures BodyLines(f) == Head(f) + [Field(Key(DataLine), f.data)]
  {}

  lemma {:induction false} FeedBody(f: Frame, out: seq<Frame>)
    requires Printable(f)
    ensures Feed(Parser(EMPTY, out), BodyLines(f)) == Parser(f, out)
  {
    var d := Field(Key(DataLine), f.data);
    FeedHead(f, out);
    BodyIsHeadAndData(f);
    FeedAppend(Parser(EMPTY, out), Head(f), [d]);
    OnField(DataLine, Parser(Frame(f.event, f.id, ""), out), f.data);
  }

  /** A printed item is parsed back whole, leaving the parser between frames. */
  lemma {:induction false} FeedItem(item: Item, out: seq<Frame>)
    requires item.Event? ==> Printable(item.frame)
    ensures Feed(Parser(EMPTY, out), PrintLines(item)) == Parser(EMPTY, out + Frames([item]))
  {
    var p0 := Parser(EMPTY, out);
    TrimRightKeeps("", "\n", NEWLINES);
    match item
    case Keepalive =>
      TrimRightKeeps(":keepalive", "\n", NEWLINES);
      assert [":keepalive\n", "\n"][1..] == ["\n"];
    case Event(f) =>
      FeedBody(f, out);
      FeedAppend(p0, BodyLines(f), ["\n"]);
  }

  // ----- Frames cut short

  /** Lines that do not start with a newline character hand nothing on. */
  lemma {:induction false} FeedQuiet(p: Parser, ls: seq<string>)
    requires forall i :: 0 <= i < |ls| ==> ls[i] != "" && ls[i][0] !in NEWLINES
    ensures Feed(p, ls).out == p.out
    decreases ls
  {
    if ls != [] {
      FeedQuiet(OnLine(p, ls[0]), ls[1..]);
    }
  }

  lemma {:induction false} BodyIsQuiet(item: Item)
    ensures forall k :: 0 <= k < |PrintLines(item)| - 1 ==> PrintLines(item)[k] != "" && PrintLines(item)[k][0] !in NEWLINES
    ensures PrintLines(item) != [] && PrintLines(item)[|PrintLines(item)| - 1] == "\n"
  {}

  ghost predicate QuietUntilBlank(ls: seq<string>)
  {
    && AllLines(ls) && ls != [] && ls[|ls| - 1] == "\n"
    && forall i :: 0 <= i < |ls| - 1 ==> ls[i][0] !in NEWLINES
  }

  lemma {:induction false} FeedCutLines(p: Parser, ls: seq<string>, n: nat)
    requires QuietUntilBlank(ls) && n < |Join(ls)|
    ensures Feed(p, Lines(Join(ls)[..n])).out == p.out
  {
    var k, part := CutLines(ls, n);
    var cut := Lines(Join(ls)[..n]);
    assert ls[..|ls|] == ls;
    forall i | 0 <= i < |cut| ensures cut[i] != "" && cut[i][0] !in NEWLINES {
      if i < k { assert cut[i] == ls[i]; } else { assert cut[i] == part && part[0] == ls[k][0]; }
    }
    FeedQuiet(p, cut);
  }

  /** An item cut before its last byte hands nothing on. */
  lemma {:induction false} FeedCutItem(item: Item, n: nat, p: Parser)
    requires item.Event? ==> Printable(item.frame)
    requires n < |Print(item)|
    ensures Feed(p, Lines(Print(item)[..n])).out == p.out
  {
    PrintedLines(item);
    BodyIsQuiet(item);
    FeedCutLines(p, PrintLines(item), n);
  }

  // ----- Whole streams

  lemma {:induction false} FeedAll(items: seq<Item>, out: seq<Frame>)
    requires AllPrintable(items)
    ensures Feed(Parser(EMPTY, out), Lines(PrintAll(items))) == Parser(EMPTY, out + Frames(items))
    decreases items
  {
    if items == [] {
      assert out + [] == out;
    } else {
      FeedFirst(items[0], PrintAll(items), PrintAll(items[1..]), out);
      FeedAll(items[1..], out + Frames([items[0]]));
      FramesSplit(items);
      AppendAssoc(out, Frames([items[0]]), Frames(items[1..]));
    }
  }

  lemma {:induction false} FramesSplit(items: seq<Item>)
    requires items != []
    ensures Frames(items) == Frames([items[0]]) + Frames(items[1..])
  {
    assert [items[0]][1..] == [];
  }

  /** The first item is parsed and done with before anything after it. */
  lemma {:induction false} FeedFirst(item: Item, text: string, rest: string, out: seq<Frame>)
    requires (item.Event? ==> Printable(item.frame)) && text == Print(item) + rest
    ensures Feed(Parser(EMPTY, out), Lines(text)) == Feed(Parser(EMPTY, out + Frames([item])), Lines(rest))
  {
    PrintedLines(item);
    LinesAppend(Print(item), rest);
    FeedAppend(Parser(EMPTY, out), PrintLines(item), Lines(rest));
    FeedItem(item, out);
  }

  /** How many items had arrived whole after n bytes. */
  function Arrived(items: seq<Item>, n: nat): (k: nat)
    ensures k <= |items|
  {
    if items == [] || n < |Print(items[0])| then 0
    else 1 + Arrived(items[1..], n - |Print(items[0])|)
  }

  /** Arrived counts exactly the items whose last byte is among the first n. */
  lemma {:induction false} ArrivedIsTight(items: seq<Item>, n: nat)
    ensures |PrintAll(items[..Arrived(items, n)])| <= n
    ensures Arrived(items, n) < |items| ==> n < |PrintAll(items[..Arrived(items, n) + 1])|
  {
    var k := Arrived(items, n);
    if items != [] && n >= |Print(items[0])| {
      ArrivedIsTight(items[1..], n - |Print(items[0])|);
      assert items[..k][1..] == items[1..][..k - 1];
      if k < |items| { assert items[..k + 1][1..] == items[1..][..k]; }
    } else if k < |items| {
      assert items[..1][1..] == [];
    }
  }

  /** After n bytes: the whole items are done with, and the parser has seen the
      part of the next one that arrived. */
  ghost predicate CutAt(items: seq<Item>, n: nat, out: seq<Frame>, part: string)
    requires n <= |PrintAll(items)|
  {
    FeedsAs(items, n, out, part) && IsPart(items, n, part)
  }

  /** The parser is where the frames that arrived whole and the part have brought it. */
  ghost predicate FeedsAs(items: seq<Item>, n: nat, out: seq<Frame>, part: string)
    requires n <= |PrintAll(items)|
  {
    Feed(Parser(EMPTY, out), Lines(PrintAll(items)[..n]))
    == Feed(Parser(EMPTY, out + Frames(items[..Arrived(items, n)])), Lines(part))
  }

  /** The bytes of the item under way. */
  predicate IsPart(items: seq<Item>, n: nat, part: string)
  {
    var k := Arrived(items, n);
    && n == |PrintAll(items[..k])| + |part|
    && if k < |items| then |part| < |Print(items[k])| && part == Print(items[k])[..|part|] else part == ""
  }

  lemma {:induction false} FeedCut(items: seq<Item>, n: nat, out: seq<Frame>) returns (part: string)
    requires AllPrintable(items) && n <= |PrintAll(items)|
    ensures CutAt(items, n, out, part)
    decreases items
  {
    if items == [] || n < |Print(items[0])| {
      part := PrintAll(items)[..n];
      CutNow(items, n, out);
    } else {
      part := FeedCut(items[1..], n - |Print(items[0])|, out + Frames([items[0]]));
      CutLater(items, n, out, part);
      PartLater(items, n, part);
    }
  }

  lemma {:induction false} CutNow(items: seq<Item>, n: nat, out: seq<Frame>)
    requires n <= |PrintAll(items)| && (items == [] || n < |Print(items[0])|)
    ensures CutAt(items, n, out, PrintAll(items)[..n])
  {
    assert items[..0] == [];
    assert out + Frames(items[..0]) == out;
    if items != [] {
      CutBefore(Print(items[0]), PrintAll(items[1..]), n);
    }
  }

  lemma {:induction false} CutBefore(a: string, b: string, n: nat)
    requires n <= |a|
    ensures (a + b)[..n] == a[..n]
  {}

  lemma {:induction false} CutLater(items: seq<Item>, n: nat, out: seq<Frame>, part: string)
    requires AllPrintable(items) && items != [] && |Print(items[0])| <= n <= |PrintAll(items)|
    requires FeedsAs(items[1..], n - |Print(items[0])|, out + Frames([items[0]]), part)
    ensures FeedsAs(items, n, out, part)
  {
    var rest, m, was := items[1..], n - |Print(items[0])|, out + Frames([items[0]]);
    var fs, gs := was + Frames(rest[..Arrived(rest, m)]), out + Frames(items[..Arrived(items, n)]);
    FramesOfPrefix(items, Arrived(items, n), out);
    CutFirst(items[0], PrintAll(items), PrintAll(rest), n, out, was, fs, gs, part);
  }

  lemma {:induction false} PartLater(items: seq<Item>, n: nat, part: string)
    requires items != [] && |Print(items[0])| <= n && IsPart(items[1..], n - |Print(items[0])|, part)
    ensures IsPart(items, n, part)
  {
    PrintAllOfPrefix(items, Arrived(items, n));
  }

  lemma {:induction false} CutFirst(item: Item, text: string, rest: string, n: nat, out: seq<Frame>, was: seq<Frame>,
    fs: seq<Frame>, gs: seq<Frame>, part: string)
    requires (item.Event? ==> Printable(item.frame)) && text == Print(item) + rest
    requires was == out + Frames([item]) && fs == gs
    requires |Print(item)| <= n <= |text|
    requires Feed(Parser(EMPTY, was), Lines(rest[..n - |Print(item)|])) == Feed(Parser(EMPTY, fs), Lines(part))
    ensures Feed(Parser(EMPTY, out), Lines(text[..n])) == Feed(Parser(EMPTY, gs), Lines(part))
  {
    CutAfter(Print(item), rest, n);
    FeedFirst(item, text[..n], rest[..n - |Print(item)|], out);
  }

  lemma {:induction false} PrintAllOfPrefix(items: seq<Item>, k: nat)
    requires 0 < k <= |items|
    ensures PrintAll(items[..k]) == Print(items[0]) + PrintAll(items[1..][..k - 1])
  {
    assert items[..k][0] == items[0] && items[..k][1..] == items[1..][..k - 1];
  }

  lemma {:induction false} FramesOfPrefix(items: seq<Item>, k: nat, out: seq<Frame>)
    requires 0 < k <= |items|
    ensures out + Frames([items[0]]) + Frames(items[1..][..k - 1]) == out + Frames(items[..k])
  {
    assert items[..k][0] == items[0] && items[..k][1..] == items[1..][..k - 1];
    FramesSplit(items[..k]);
    AppendAssoc(out, Frames([items[0]]), Frames(items[1..][..k - 1]));
  }

  /** Parsing what the server printed, keepalives and all, returns exactly the
      printed frames, however the connection then ends. */
  lemma {:induction false} ParsePrinted(items: seq<Item>, end: End)
    requires AllPrintable(items)
    ensures Parse(PrintAll(items), end) == Frames(items)
  {
    FeedAll(items, []);
  }

  /** Cutting the byte stream anywhere with a transport error yields exactly the
      frames whose terminating blank line had arrived. */
  lemma {:induction false} ParseBroken(items: seq<Item>, n: nat)
    requires AllPrintable(items) && n <= |PrintAll(items)|
    ensures Parse(PrintAll(items)[..n], Broken) == Frames(items[..Arrived(items, n)])
  {
    var part := FeedCut(items, n, []);
    var k := Arrived(items, n);
    var p := Parser(EMPTY, [] + Frames(items[..k]));
    if k < |items| {
      FeedCutItem(items[k], |part|, p);
    }
  }

  // ----- Which frames survive the wire

  ghost predicate Clean(p: Parser)
  {
    && Value(p.cur.event) && Value(p.cur.id) && Value(p.cur.data)
    && forall f :: f in p.out ==> Printable(f)
  }

  lemma {:induction false} FeedStaysClean(p: Parser, ls: seq<string>)
    requires Clean(p)
    requires forall i :: 0 <= i < |ls| ==> ls[i] != "" && '\n' !in ls[i][..|ls[i]| - 1]
    ensures Clean(Feed(p, ls))
    decreases ls
  {
    if ls != [] {
      OnLineStaysClean(p, ls[0]);
      FeedStaysClean(OnLine(p, ls[0]), ls[1..]);
    }
  }

  lemma {:induction false} OnLineStaysClean(p: Parser, raw: string)
    requires Clean(p) && raw != "" && '\n' !in raw[..|raw| - 1]
    ensures Clean(OnLine(p, raw))
  {
    var line := TrimRight(raw, NEWLINES);
    forall i | 0 <= i < |line| ensures line[i] != '\n' {
      if i < |raw| - 1 { assert raw[i] == raw[..|raw| - 1][i]; }
    }
    ClassifyIsClean(line);
  }

  lemma {:induction false} ClassifyIsClean(line: string)
    requires '\n' !in line
    ensures var l := Classify(line); l.SetEvent? || l.SetId? || l.SetData? ==> Value(l.v)
  {}

  /** Whatever the bytes, only frames the server could have printed come out. */
  lemma {:induction false} ParseYieldsPrintable(bytes: string, end: End)
    ensures forall f :: f in Parse(bytes, end) ==> Printable(f)
  {
    forall i | 0 <= i < |Lines(bytes)| ensures Lines(bytes)[i] != ""
      && '\n' !in Lines(bytes)[i][..|Lines(bytes)[i]| - 1] {
      LineShape(bytes, i);
    }
    FeedStaysClean(Parser(EMPTY, []), Lines(bytes));
  }

  /** A frame survives the wire exactly when its values fit on one line each. */
  lemma {:induction false} SurvivesIffPrintable(f: Frame, end: End)
    ensures Parse(PrintAll([Event(f)]), end) == [f] <==> Printable(f)
  {
    ParseYieldsPrintable(PrintAll([Event(f)]), end);
    assert f in [f];
    if Printable(f) {
      ParsePrinted([Event(f)], end);
      assert Frames([Event(f)]) == [f];
    }
  }

  // ----- A clean end inside a frame

  /** What of a value is there when so many characters of it have arrived. */
  function Upto(v: string, have: int): (s: string)
  {
    if have <= 0 then "" else if have >= |v| then v else v[..have]
  }

  /** Where the event line ends, and where the id line does. */
  function EventEnd(f: Frame): (n: nat)
  {
    |Field(Key(EventLine), f.event)|
  }

  function IdEnd(f: Frame): (n: nat)
  {
    EventEnd(f) + if f.id == "" then 0 else |Field(Key(IdLine), f.id)|
  }

  /** Where a field's line starts, and how much of its value the first n bytes hold. */
  function Start(k: Kind, f: Frame): (n: nat)
  {
    match k case EventLine => 0 case IdLine => EventEnd(f) case DataLine => IdEnd(f)
  }

  function Have(k: Kind, f: Frame, n: nat): (have: int)
  {
    n - Start(k, f) - |Key(k)|
  }

  /** What is seen of a value, and of a frame, in its first n bytes. */
  function ValueSeen(k: Kind, f: Frame, n: nat): (w: string)
  {
    TrimSpace(Upto(Get(k, f), Have(k, f, n)))
  }

  function Seen(f: Frame, n: nat): (g: Frame)
  {
    Frame(ValueSeen(EventLine, f, n), ValueSeen(IdLine, f, n), ValueSeen(DataLine, f, n))
  }

  /** A character of its name or of its data is among the first n bytes. */
  predicate Started(f: Frame, n: nat)
  {
    (f.event != "" && n > |Key(EventLine)|) || (f.data != "" && n > IdEnd(f) + |Key(DataLine)|)
  }

  /** All its values are, so that at most blank fields and newlines are missing. */
  predicate Whole(f: Frame, n: nat)
  {
    && (f.event != "" ==> n >= |Key(EventLine)| + |f.event|)
    && (f.id != "" ==> n >= EventEnd(f) + |Key(IdLine)| + |f.id|)
    && (f.data != "" ==> n >= IdEnd(f) + |Key(DataLine)| + |f.data|)
  }

  /** What is seen of a value when so many characters of it have arrived: the value
      exactly when all have, nothing exactly when none has, else something shorter. */
  predicate IsSeen(v: string, have: int, w: string)
  {
    && (w == v <==> v == "" || have >= |v|) && (w == "" <==> v == "" || have <= 0)
    && (have < |v| && v != "" ==> |w| < |v|)
  }

  lemma {:induction false} UptoSeen(v: string, have: int)
    requires Trimmed(v)
    ensures IsSeen(v, have, TrimSpace(Upto(v, have)))
  {
    TrimSpaceIsShorter(Upto(v, have));
    if v != "" && 0 < have < |v| {
      TrimSpaceKeepsInk(v[..have], 0);
    }
    TrimSpaceOfTrimmed(v);
  }

  /** Field by field, g is what is seen of f in its first n bytes. */
  predicate AllSeen(f: Frame, n: nat, g: Frame)
  {
    && IsSeen(f.event, Have(EventLine, f, n), g.event) && IsSeen(f.id, Have(IdLine, f, n), g.id)
    && IsSeen(f.data, Have(DataLine, f, n), g.data)
  }

  lemma {:induction false} SeenIsSeen(f: Frame, n: nat)
    requires Printable(f)
    ensures AllSeen(f, n, Seen(f, n))
  {
    UptoSeen(f.event, Have(EventLine, f, n));
    UptoSeen(f.id, Have(IdLine, f, n));
    UptoSeen(f.data, Have(DataLine, f, n));
  }

  lemma {:induction false} LineEnds(f: Frame)
    ensures EventEnd(f) == |Key(EventLine)| + |f.event| + 1
    ensures IdEnd(f) == EventEnd(f) + if f.id == "" then 0 else |Key(IdLine)| + |f.id| + 1
  {}

  /** When that is handed on at a clean end, when it is the frame, and when it has an
      id. */
  lemma {:induction false} AllSeenMeaning(f: Frame, n: nat, g: Frame)
    requires AllSeen(f, n, g)
    ensures (Pending(g) <==> Started(f, n)) && (g == f <==> Whole(f, n))
    ensures g.id != "" <==> f.id != "" && n > EventEnd(f) + |Key(IdLine)|
  {}

  lemma {:induction false} SeenMeaning(f: Frame, n: nat)
    requires Printable(f)
    ensures Pending(Seen(f, n)) <==> Started(f, n)
    ensures Seen(f, n) == f <==> Whole(f, n)
    ensures Seen(f, n).id != "" <==> f.id != "" && n > EventEnd(f) + |Key(IdLine)|
  {
    SeenIsSeen(f, n);
    AllSeenMeaning(f, n, Seen(f, n));
  }

  /** The frame as it is when a field's line begins. */
  function Before(k: Kind, f: Frame): (g: Frame)
  {
    Frame(if k == EventLine then "" else f.event, if k == DataLine then f.id else "", "")
  }

  /** Cut m characters into a field's line: the fields before it are there, those after
      it are not. */
  lemma {:induction false} SeenAtLine(k: Kind, f: Frame, m: nat, n: nat, g: Frame)
    requires AllSeen(f, n, g) && n == Start(k, f) + m && m < |Field(Key(k), Get(k, f))| && (k == IdLine ==> f.id != "")
    ensures g == Put(k, Before(k, f), Get(k, g))
  {
    LineEnds(f);
  }

  lemma {:induction false} SeenBeforeDataEnds(f: Frame, n: nat, g: Frame)
    requires AllSeen(f, n, g) && f.event != "" && f.id != ""
    requires EventEnd(f) + |Key(IdLine)| + |f.id| <= n < IdEnd(f) + |Key(DataLine)| + |f.data|
    ensures Started(f, n) && g.event == f.event && g.id == f.id && (g.data == f.data <==> f.data == "")
  {
    LineEnds(f);
  }

  lemma {:induction false} SeenInsideId(f: Frame, n: nat, g: Frame)
    requires AllSeen(f, n, g) && f.event != ""
    requires EventEnd(f) + |Key(IdLine)| < n < EventEnd(f) + |Key(IdLine)| + |f.id|
    ensures Started(f, n) && g.event == f.event && g.id != "" && |g.id| < |f.id| && g.data == ""
  {
    LineEnds(f);
  }

  /** A field line cut short: part of its key, or the key and part of its value. */
  lemma {:induction false} CutKey(key: string, v: string, m: nat)
    requires |key| > 0 && key[|key| - 1] == ' ' && '\n' !in key && '\r' !in key && m < |Field(key, v)|
    ensures m < |key| ==> TrimRight(Field(key, v)[..m], NEWLINES) == key[..m]
    ensures m >= |key| ==> TrimRight(Field(key, v)[..m], NEWLINES) == key + TrimRight(v[..m - |key|], NEWLINES)
  {
    if m < |key| {
      assert Field(key, v)[..m] == key[..m];
      assert forall i :: 0 <= i < m ==> key[..m][i] in key;
      TrimRightKeeps(key[..m], "", NEWLINES);
      assert key[..m] + "" == key[..m];
    } else {
      var x := v[..m - |key|];
      var y := TrimRight(x, NEWLINES);
      assert Field(key, v)[..m] == key + x && x == y + x[|y|..];
      AppendAssoc(key, y, x[|y|..]);
      TrimRightKeeps(key + y, x[|y|..], NEWLINES);
    }
  }

  /** The value of such a line, blank in front and newlines behind. */
  lemma {:induction false} CutValue(blank: string, x: string)
    requires blank == " "
    ensures TrimSpace(blank + TrimRight(x, NEWLINES)) == TrimSpace(x)
  {
    var tail := CutOff(x);
    BlankIsSpace(blank);
    TrimSpaceInFront(blank, TrimRight(x, NEWLINES));
    TrimSpaceBehind(TrimRight(x, NEWLINES), tail);
  }

  lemma {:induction false} CutOff(x: string) returns (tail: string)
    ensures TrimRight(x, NEWLINES) + tail == x && forall c :: c in tail ==> c in SPACES
  {
    var y := TrimRight(x, NEWLINES);
    tail := x[|y|..];
    assert forall i :: 0 <= i < |tail| ==> tail[i] == x[|y| + i];
    NewlinesAreSpaces(tail);
  }

  lemma {:induction false} BlankIsSpace(blank: string)
    requires blank == " "
    ensures forall c :: c in blank ==> c in SPACES
  {}

  lemma {:induction false} NewlinesAreSpaces(s: string)
    requires forall c :: c in s ==> c in NEWLINES
    ensures forall c :: c in s ==> c in SPACES
  {}

  /** Too little of a key to tell the field. */
  lemma {:induction false} NoFieldYet(k: Kind, line: string, m: nat)
    requires 0 < m < |Key(k)| - 1 && line == Key(k)[..m]
    ensures Classify(line) == Unknown
  {
    assert |line| == m && line[0] == Key(k)[0];
  }

  lemma {:induction false} ReadCut(k: Kind, v: string, m: nat)
    requires |Key(k)| - 1 <= m < |Field(Key(k), v)|
    ensures Classify(TrimRight(Field(Key(k), v)[..m], NEWLINES)) == Says(k, TrimSpace(Upto(v, m - |Key(k)|)))
  {
    KeyShape(k);
    CutKey(Key(k), v, m);
    if m < |Key(k)| {
      assert Key(k)[..m] == Key(k)[..|Key(k)| - 1] + "";
      ReadRest(k, Key(k)[..m], "");
    } else {
      var x := Upto(v, m - |Key(k)|);
      assert x == v[..m - |Key(k)|];
      AfterKey(k, TrimRight(x, NEWLINES));
      ReadRest(k, Key(k) + TrimRight(x, NEWLINES), " " + TrimRight(x, NEWLINES));
      CutValue(" ", x);
    }
  }

  lemma {:induction false} FeedComments(p: Parser, ls: seq<string>)
    requires forall i :: 0 <= i < |ls| ==> ls[i] != "" && ls[i][0] == ':'
    ensures Feed(p, ls) == p
    decreases ls
  {
    if ls != [] {
      var line := TrimRight(ls[0], NEWLINES);
      assert line != "" && line[..1] == ":";
      FeedComments(p, ls[1..]);
    }
  }

  lemma {:induction false} CutComment(p: Parser, ls: seq<string>, n: nat)
    requires AllLines(ls) && |ls| == 2 && ls[0][0] == ':' && ls[1] == "\n" && n < |Join(ls)|
    ensures Feed(p, Lines(Join(ls)[..n])) == p
  {
    var k, part := CutLines(ls, n);
    var cut := Lines(Join(ls)[..n]);
    assert ls[..|ls|] == ls;
    forall i | 0 <= i < |cut| ensures cut[i] != "" && cut[i][0] == ':' {
      if i < k { assert cut[i] == ls[i]; } else { assert cut[i] == part && part[0] == ls[k][0]; }
    }
    FeedComments(p, cut);
  }

  lemma {:induction false} FeedPart(p: Parser, part: string)
    ensures Feed(p, Part(part)) == if part == "" then p else OnLine(p, part)
  {}

  /** A field line cut after m characters. */
  lemma {:induction false} FeedPartOf(k: Kind, p: Parser, v: string, m: nat)
    requires Get(k, p.cur) == "" && m < |Field(Key(k), v)|
    ensures Feed(p, Part(Field(Key(k), v)[..m])) == p.(cur := Put(k, p.cur, TrimSpace(Upto(v, m - |Key(k)|))))
  {
    FeedPart(p, Field(Key(k), v)[..m]);
    if m >= |Key(k)| - 1 {
      ReadCut(k, v, m);
    } else if m > 0 {
      KeyShape(k);
      CutKey(Key(k), v, m);
      NoFieldYet(k, Key(k)[..m], m);
    }
  }

  /** The lines in front of a field's line. */
  function LinesBefore(k: Kind, f: Frame): (ls: seq<string>)
  {
    match k case EventLine => [] case IdLine => [Field(Key(EventLine), f.event)] case DataLine => Head(f)
  }

  lemma {:induction false} FeedBefore(k: Kind, f: Frame, out: seq<Frame>)
    requires Printable(f)
    ensures Feed(Parser(EMPTY, out), LinesBefore(k, f)) == Parser(Before(k, f), out)
  {
    match k
    case EventLine =>
    case IdLine => OnField(EventLine, Parser(EMPTY, out), f.event);
    case DataLine => FeedHead(f, out);
  }

  lemma {:induction false} HeadLength(f: Frame)
    ensures |Join(Head(f))| == IdEnd(f) && |Join([Field(Key(EventLine), f.event)])| == EventEnd(f)
    ensures |Join(BodyLines(f))| == IdEnd(f) + |Field(Key(DataLine), f.data)|
  {
    var e, i, d := Field(Key(EventLine), f.event), Field(Key(IdLine), f.id), Field(Key(DataLine), f.data);
    JoinAppend([e], [i]);
    JoinOne(e);
    JoinOne(i);
    JoinOne(d);
    BodyIsHeadAndData(f);
    JoinAppend(Head(f), [d]);
  }

  lemma {:induction false} JoinOne(a: string)
    ensures Join([a]) == a
  {
    assert Join([a]) == a + Join([]) == a;
  }

  /** The line a cut falls into, the lines before it, and how long those are. */
  lemma {:induction false} CutPlaces(f: Frame, ls: seq<string>, j: nat) returns (body: bool, k: Kind)
    requires ls == PrintLines(Event(f)) && j < |ls|
    ensures body ==> ls[..j] == BodyLines(f) && ls[j] == "\n" && |Join(ls[..j])| == IdEnd(f) + |Field(Key(DataLine), f.data)|
    ensures !body ==> ls[..j] == LinesBefore(k, f) && ls[j] == Field(Key(k), Get(k, f)) && |Join(ls[..j])| == Start(k, f)
    ensures !body && k == IdLine ==> f.id != ""
  {
    BodyIsHeadAndData(f);
    HeadLength(f);
    body := j == |ls| - 1;
    k := if j == 0 then EventLine else if j == |ls| - 2 then DataLine else IdLine;
    if body {
      assert ls[..j] == BodyLines(f);
    } else if k == DataLine {
      assert ls[..j] == Head(f);
    }
  }

  /** After the first n bytes of a frame the parser holds what is seen of it. */
  lemma {:induction false} CutFrame(f: Frame, n: nat, out: seq<Frame>)
    requires Printable(f) && n < |Print(Event(f))|
    ensures Feed(Parser(EMPTY, out), Lines(Print(Event(f))[..n])) == Parser(Seen(f, n), out)
  {
    var ls := PrintLines(Event(f));
    PrintedLines(Event(f));
    var j, part := CutLines(ls, n);
    NotAllLines(ls, j, part, n);
    var body, k := CutPlaces(f, ls, j);
    FeedAppend(Parser(EMPTY, out), ls[..j], Part(part));
    if body {
      CutBehindBody(f, part, n, out);
    } else {
      FeedBefore(k, f, out);
      CutInLine(k, f, part, |part|, n, out);
      SeenIsSeen(f, n);
      SeenAtLine(k, f, |part|, n, Seen(f, n));
      GetSeen(k, f, n);
    }
  }

  lemma {:induction false} CutBehindBody(f: Frame, part: string, n: nat, out: seq<Frame>)
    requires Printable(f) && part == "" && n >= IdEnd(f) + |Key(DataLine)| + |f.data|
    ensures Feed(Feed(Parser(EMPTY, out), BodyLines(f)), Part(part)) == Parser(Seen(f, n), out)
  {
    FeedBody(f, out);
    FeedPart(Parser(f, out), part);
    LineEnds(f);
    SeenMeaning(f, n);
  }

  lemma {:induction false} CutInLine(k: Kind, f: Frame, part: string, m: nat, n: nat, out: seq<Frame>)
    requires n == Start(k, f) + m && m < |Field(Key(k), Get(k, f))| && part == Field(Key(k), Get(k, f))[..m]
    ensures Feed(Parser(Before(k, f), out), Part(part)) == Parser(Put(k, Before(k, f), ValueSeen(k, f, n)), out)
  {
    FeedPartOf(k, Parser(Before(k, f), out), Get(k, f), m);
  }

  lemma {:induction false} GetSeen(k: Kind, f: Frame, n: nat)
    ensures Get(k, Seen(f, n)) == ValueSeen(k, f, n)
  {
    match k
    case EventLine =>
    case IdLine =>
    case DataLine =>
  }

  lemma {:induction false} NotAllLines(ls: seq<string>, k: nat, part: string, n: nat)
    requires k <= |ls| && n == |Join(ls[..k])| + |part| && n < |Join(ls)|
    requires if k < |ls| then part < ls[k] else part == ""
    ensures k < |ls| && |part| < |ls[k]| && part == ls[k][..|part|]
  {
    assert ls[..|ls|] == ls;
  }

  /** How far into the item under way the cut fell. */
  function Into(items: seq<Item>, n: nat): (m: nat)
  {
    var k := Arrived(items, n);
    if |PrintAll(items[..k])| <= n then n - |PrintAll(items[..k])| else 0
  }

  /** The cut is inside a frame that a clean end hands on. */
  predicate CutsFrame(items: seq<Item>, n: nat)
  {
    var k := Arrived(items, n);
    k < |items| && items[k].Event? && Started(items[k].frame, Into(items, n))
  }

  /** A clean end hands on the frames that arrived whole, and of a frame under way
      whatever was seen of it. */
  lemma {:induction false} CleanEnd(items: seq<Item>, n: nat)
    requires AllPrintable(items) && n <= |PrintAll(items)|
    ensures var k := Arrived(items, n);
            Parse(PrintAll(items)[..n], Eof)
            == Frames(items[..k]) + if CutsFrame(items, n) then [Seen(items[k].frame, Into(items, n))] else []
  {
    var part := FeedCut(items, n, []);
    CleanEndAt(items, n, PrintAll(items)[..n], Frames(items[..Arrived(items, n)]), part);
  }

  lemma {:induction false} CleanEndAt(items: seq<Item>, n: nat, text: string, out: seq<Frame>, part: string)
    requires AllPrintable(items) && IsPart(items, n, part) && out == Frames(items[..Arrived(items, n)])
    requires Feed(Parser(EMPTY, []), Lines(text)) == Feed(Parser(EMPTY, [] + out), Lines(part))
    ensures Parse(text, Eof)
            == out + if CutsFrame(items, n) then [Seen(items[Arrived(items, n)].frame, Into(items, n))] else []
  {
    var k := Arrived(items, n);
    assert [] + out == out;
    if k < |items| {
      assert items[k] in items;
      PartOfItem(items, n, part, items[k]);
      CutItemText(items[k], part, out);
    }
    ParseIs(text, Feed(Parser(EMPTY, out), Lines(part)));
  }

  lemma {:induction false} ParseIs(text: string, p: Parser)
    requires Feed(Parser(EMPTY, []), Lines(text)) == p
    ensures Parse(text, Eof) == p.out + if Pending(p.cur) then [p.cur] else []
  {}

  lemma {:induction false} PartOfItem(items: seq<Item>, n: nat, part: string, item: Item)
    requires IsPart(items, n, part) && Arrived(items, n) < |items| && item == items[Arrived(items, n)]
    ensures |part| < |Print(item)| && part == Print(item)[..|part|] && Into(items, n) == |part|
  {}

  lemma {:induction false} CutItemText(item: Item, part: string, out: seq<Frame>)
    requires (item.Event? ==> Printable(item.frame)) && |part| < |Print(item)| && part == Print(item)[..|part|]
    ensures var p := Feed(Parser(EMPTY, out), Lines(part));
            p.out == out && p.cur == if item.Event? then Seen(item.frame, |part|) else EMPTY
    ensures item.Event? ==> (Pending(Seen(item.frame, |part|)) <==> Started(item.frame, |part|))
  {
    CutItem(item, |part|, out);
  }

  lemma {:induction false} CutItem(item: Item, n: nat, out: seq<Frame>)
    requires (item.Event? ==> Printable(item.frame)) && n < |Print(item)|
    ensures var p := Feed(Parser(EMPTY, out), Lines(Print(item)[..n]));
            p.out == out && p.cur == if item.Event? then Seen(item.frame, n) else EMPTY
    ensures item.Event? ==> (Pending(Seen(item.frame, n)) <==> Started(item.frame, n))
  {
    match item
    case Keepalive =>
      PrintedLines(item);
      CutComment(Parser(EMPTY, out), PrintLines(item), n);
    case Event(f) =>
      CutFrame(f, n, out);
      SeenMeaning(f, n);
  }

  /** A clean end hands on just the frames that arrived whole exactly when it does not
      fall inside a frame of which a character of the name or the data is there. */
  lemma {:induction false} ParseEof(items: seq<Item>, n: nat)
    requires AllPrintable(items) && n <= |PrintAll(items)|
    ensures Parse(PrintAll(items)[..n], Eof) == Frames(items[..Arrived(items, n)]) <==> !CutsFrame(items, n)
  {
    CleanEnd(items, n);
  }

  /** Everything handed on at a clean end is what the server printed exactly when,
      besides, all the values of the frame under way may be there. */
  lemma {:induction false} EofHandsOnPrinted(items: seq<Item>, n: nat)
    requires AllPrintable(items) && n <= |PrintAll(items)|
    ensures Parse(PrintAll(items)[..n], Eof) <= Frames(items) <==>
            (CutsFrame(items, n) ==> Whole(items[Arrived(items, n)].frame, Into(items, n)))
  {
    var k := Arrived(items, n);
    CleanEnd(items, n);
    FramesAround(items, k);
    if CutsFrame(items, n) {
      var f, g := items[k].frame, Seen(items[k].frame, Into(items, n));
      assert items[k] in items;
      SeenMeaning(f, Into(items, n));
      OneMoreFrame(Frames(items[..k]), f, Frames(items[k + 1..]), Frames(items), g);
    }
  }

  lemma {:induction false} OneMoreFrame(a: seq<Frame>, f: Frame, b: seq<Frame>, all: seq<Frame>, g: Frame)
    requires all == a + [f] + b
    ensures a + [g] <= all <==> g == f
  {
    assert all[|a|] == f && (a + [g])[|a|] == g;
  }

  lemma {:induction false} FramesAppend(a: seq<Item>, b: seq<Item>)
    ensures Frames(a + b) == Frames(a) + Frames(b)
  {
    if a == [] {
      assert a + b == b;
    } else {
      assert (a + b)[1..] == a[1..] + b;
      FramesAppend(a[1..], b);
    }
  }

  lemma {:induction false} FramesAround(items: seq<Item>, k: nat)
    requires k <= |items|
    ensures Frames(items[..k]) <= Frames(items)
    ensures k < |items| && items[k].Event?
            ==> Frames(items) == Frames(items[..k]) + [items[k].frame] + Frames(items[k + 1..])
  {
    assert items == items[..k] + items[k..];
    FramesAppend(items[..k], items[k..]);
    if k < |items| && items[k].Event? {
      assert items[k..][1..] == items[k + 1..];
      AppendAssoc(Frames(items[..k]), [items[k].frame], Frames(items[k + 1..]));
    }
  }

  /** One frame and a clean end. */
  lemma {:induction false} ParseCut(f: Frame, n: nat)
    requires Printable(f) && n < |Print(Event(f))|
    ensures Parse(Print(Event(f))[..n], Eof) == if Started(f, n) then [Seen(f, n)] else []
  {
    CutItem(Event(f), n, []);
  }

  /** A clean end right behind the last value hands on the frame, whole and under its
      own id, though its terminator never came. */
  lemma {:induction false} EofBehindValuesIsWhole(f: Frame, n: nat)
    requires Printable(f) && n < |Print(Event(f))| && Whole(f, n)
    ensures Parse(Print(Event(f))[..n], Eof) == [f]
  {
    ParseCut(f, n);
    SeenMeaning(f, n);
  }

  /** One between the id and the end of the data hands on a frame with part of its
      data, under the id the client will resume after. */
  lemma {:induction false} EofInDataTruncates(f: Frame, n: nat) returns (d: string)
    requires Printable(f) && f.event != "" && f.id != ""
    requires EventEnd(f) + |Key(IdLine)| + |f.id| <= n < IdEnd(f) + |Key(DataLine)| + |f.data|
    ensures n < |Print(Event(f))| && Parse(Print(Event(f))[..n], Eof) == [Frame(f.event, f.id, d)]
    ensures d == f.data <==> f.data == ""
  {
    PrintIsLonger(f);
    SeenIsSeen(f, n);
    SeenBeforeDataEnds(f, n, Seen(f, n));
    d := Seen(f, n).data;
    ParseCut(f, n);
  }

  /** One inside the id hands on a frame without data, under an id that is not its own. */
  lemma {:induction false} EofInIdInventsAnId(f: Frame, n: nat) returns (id: string)
    requires Printable(f) && f.event != "" && EventEnd(f) + |Key(IdLine)| < n < EventEnd(f) + |Key(IdLine)| + |f.id|
    ensures n < |Print(Event(f))| && Parse(Print(Event(f))[..n], Eof) == [Frame(f.event, id, "")]
    ensures id != "" && |id| < |f.id|
  {
    PrintIsLonger(f);
    SeenIsSeen(f, n);
    SeenInsideId(f, n, Seen(f, n));
    id := Seen(f, n).id;
    ParseCut(f, n);
  }

  lemma {:induction false} PrintIsLonger(f: Frame)
    ensures IdEnd(f) + |Field(Key(DataLine), f.data)| < |Print(Event(f))|
  {
    HeadLength(f);
    JoinAppend(BodyLines(f), ["\n"]);
    JoinOne("\n");
  }
}
