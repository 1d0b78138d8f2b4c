/** The message log: `save_message` appends records to a text file, `make_json_messages` reads the file line by
    line and prints a JSON array. */
module MessageLog {
  import opened Bytes
  import opened JsonText

  datatype Who = Friend | You {
    function Tag(): string {
      match this
      case Friend => "$friend"
      case You => "$you"
    }

    function Sender(uuid: string): string {
      match this
      case Friend => uuid
      case You => "you"
    }
  }

  datatype Record = Record(who: Who, text: string, date: string, time: string)

  // ---- Lines

  predicate OneLine(s: string) {
    '\n' !in s
  }

  /** The index of the first newline, or the length. */
  function LineEnd(s: string): (n: nat)
    ensures n <= |s| && OneLine(s[..n]) && (n < |s| ==> s[n] == '\n')
  {
    if s == "" || s[0] == '\n' then 0
    else
      var n := 1 + LineEnd(s[1..]);
      assert s[..n] == [s[0]] + s[1..][..n - 1];
      n
  }

  /** The lines `std::getline` yields until it fails: a last line needs no newline, an empty one does. */
  function Lines(s: string): seq<string>
    decreases |s|
  {
    if s == "" then []
    else
      var n := LineEnd(s);
      [s[..n]] + (if n < |s| then Lines(s[n + 1..]) else [])
  }

  function Unlines(ls: seq<string>): string {
    if ls == [] then "" else ls[0] + "\n" + Unlines(ls[1..])
  }

  lemma {:induction false} LineEndIs(s: string, n: nat)
    requires n <= |s| && OneLine(s[..n]) && (n < |s| ==> s[n] == '\n')
    ensures LineEnd(s) == n
    decreases |s|
  {
    if n > 0 {
      assert s[..n][0] == s[0];
      assert s[1..][..n - 1] == s[..n][1..];
      LineEndIs(s[1..], n - 1);
    }
  }

  lemma {:induction false} FirstLine(s: string, n: nat)
    requires n < |s| && OneLine(s[..n]) && s[n] == '\n'
    ensures Lines(s) == [s[..n]] + Lines(s[n + 1..])
  {
    LineEndIs(s, n);
  }

  lemma {:induction false} OnlyLine(s: string)
    requires s != "" && OneLine(s)
    ensures Lines(s) == [s]
  {
    assert s[..|s|] == s;
    LineEndIs(s, |s|);
  }

  lemma {:induction false} LinesOfJoined(line: string, more: string)
    requires OneLine(line)
    ensures Lines(line + "\n" + more) == [line] + Lines(more)
  {
    hide Lines;
    var s := line + "\n" + more;
    assert s[..|line|] == line && s[|line| + 1..] == more;
    FirstLine(s, |line|);
  }

  lemma Regroup<T>(a: seq<T>, b: seq<T>, c: seq<T>, d: seq<T>)
    ensures a + b + c + d == a + b + (c + d)
  {
  }

  lemma {:induction false} LinesOfUnlines(ls: seq<string>, rest: string)
    requires forall i :: 0 <= i < |ls| ==> OneLine(ls[i])
    ensures Lines(Unlines(ls) + rest) == ls + Lines(rest)
    decreases |ls|
  {
    if ls == [] {
      assert Unlines(ls) + rest == rest;
    } else {
      hide Lines, OneLine;
      var line, tail := ls[0], ls[1..];
      assert OneLine(line);
      LinesOfUnlines(tail, rest);
      LinesOfOneMore(line, tail, rest);
      assert Unlines(ls) == line + "\n" + Unlines(tail);
      hide Unlines;
      assert ls == [line] + tail;
    }
  }

  lemma LinesOfOneMore(line: string, ls: seq<string>, rest: string)
    requires OneLine(line)
    requires Lines(Unlines(ls) + rest) == ls + Lines(rest)
    ensures Lines(line + "\n" + Unlines(ls) + rest) == [line] + ls + Lines(rest)
  {
    hide Lines, OneLine, Unlines;
    Regroup(line, "\n", Unlines(ls), rest);
    LinesOfJoined(line, Unlines(ls) + rest);
  }

  lemma {:induction false} LinesAreOneLine(s: string)
    ensures forall i :: 0 <= i < |Lines(s)| ==> OneLine(Lines(s)[i])
    decreases |s|
  {
    if s != "" {
      var n := LineEnd(s);
      if n < |s| {
        LinesAreOneLine(s[n + 1..]);
      }
    }
  }

  // ---- What a list of lines means

  function TagOf(line: string): Option<Who> {
    if line == "$friend" then Some(Friend)
    else if line == "$you" then Some(You)
    else None
  }

  /** The two tags, on the lines they were written as; every other line is junk between records. */
  lemma Tags(line: string)
    ensures Friend.Tag() == "$friend" && You.Tag() == "$you"
    ensures TagOf(line) == Some(Friend) <==> line == "$friend"
    ensures TagOf(line) == Some(You) <==> line == "$you"
  {
  }

  datatype Fields = Fields(text: string, date: string, time: string)

  function Take(f: Fields, line: string): Fields {
    if "message:" <= line then f.(text := line[8..])
    else if "date:" <= line then f.(date := line[5..])
    else if "time:" <= line then f.(time := line[5..])
    else f
  }

  /** A line of a record: the last of each kind counts, and lines of no kind count for nothing. */
  lemma TakeForms(f: Fields, x: string)
    ensures Take(f, "message:" + x) == f.(text := x)
    ensures Take(f, "date:" + x) == f.(date := x)
    ensures Take(f, "time:" + x) == f.(time := x)
    ensures !("message:" <= x) && !("date:" <= x) && !("time:" <= x) ==> Take(f, x) == f
  {
    Prefixed("message:", x);
    Prefixed("date:", x);
    Prefixed("time:", x);
    assert ("date:" + x)[0] == 'd' && ("time:" + x)[0] == 't';
  }

  lemma Prefixed(p: string, x: string)
    ensures p <= p + x && (p + x)[|p|..] == x
  {
  }

  /** The fields up to `$end` or the end of the file, and the lines after it. */
  function Body(lines: seq<string>, f: Fields): (r: (Fields, seq<string>))
    ensures |r.1| <= |lines|
    decreases |lines|
  {
    if lines == [] then (f, [])
    else if lines[0] == "$end" then (f, lines[1..])
    else Body(lines[1..], Take(f, lines[0]))
  }

  const NOTHING := Fields("", "", "")

  function Parse(lines: seq<string>): seq<Record>
    decreases |lines|
  {
    if lines == [] then []
    else match TagOf(lines[0])
      case None => Parse(lines[1..])
      case Some(who) =>
        var (f, rest) := Body(lines[1..], NOTHING);
        [RecordOf(who, f)] + Parse(rest)
  }

  function RecordOf(who: Who, f: Fields): Record {
    Record(who, f.text, f.date, f.time)
  }

  // ---- The printed array

  /** A key with its opening quote, a value that is already escaped, the closing quote. */
  function Field(key: string, value: string): string {
    key + value + "\""
  }

  const SENDER := "{\"sender\":\""
  const MESSAGE := ",\"message\":\""
  const DATE := ",\"date\":\""
  const TIME := ",\"time\":\""

  function Item(r: Record, uuid: string): string {
    Field(SENDER, r.who.Sender(uuid)) + Field(MESSAGE, Escape(r.text)) + Field(DATE, r.date) + Field(TIME, r.time) + "}"
  }

  /** The characters printed for one record. */
  lemma ItemText(r: Record, uuid: string)
    ensures Item(r, uuid) ==
            ("{\"sender\":\"" + (match r.who case Friend => uuid case You => "you") + "\"")
            + (",\"message\":\"" + Escape(r.text) + "\"")
            + (",\"date\":\"" + r.date + "\"") + (",\"time\":\"" + r.time + "\"") + "}"
  {
    hide Escape;
  }

  function Items(rs: seq<Record>, uuid: string): string {
    if rs == [] then ""
    else if |rs| == 1 then Item(rs[0], uuid)
    else Items(rs[..|rs| - 1], uuid) + "," + Item(rs[|rs| - 1], uuid)
  }

  function Json(rs: seq<Record>, uuid: string): string {
    "[" + Items(rs, uuid) + "]"
  }

  // ---- The reading loops

  method GetLine(content: string, pos: nat) returns (line: string, next: nat)
    requires pos < |content|
    ensures pos < next <= |content|
    ensures Lines(content[pos..]) == [line] + Lines(content[next..])
  {
    hide Lines;
    var end := pos;
    while end < |content| && content[end] != '\n'
      invariant pos <= end <= |content|
      invariant OneLine(content[pos..end])
    {
      assert content[pos..end + 1] == content[pos..end] + [content[end]];
      end := end + 1;
    }
    line := content[pos..end];
    ghost var s := content[pos..];
    assert s[..end - pos] == line;
    if end < |content| {
      next := end + 1;
      FirstLine(s, end - pos);
      assert s[end - pos + 1..] == content[next..];
    } else {
      next := end;
      assert s == line;
      OnlyLine(s);
      NoLines(content[next..]);
    }
  }

  lemma NoLines(s: string)
    requires s == ""
    ensures Lines(s) == []
  {
  }

  lemma BodyStep(lines: seq<string>, line: string, more: seq<string>, f: Fields)
    requires lines == [line] + more
    ensures Body(lines, f) == if line == "$end" then (f, more) else Body(more, Take(f, line))
  {
    assert lines[1..] == more;
  }

  lemma ParseStep(lines: seq<string>, line: string, more: seq<string>)
    requires lines == [line] + more
    ensures TagOf(line) == None ==> Parse(lines) == Parse(more)
    ensures TagOf(line) != None ==>
              Parse(lines) ==
              [RecordOf(TagOf(line).value, Body(more, NOTHING).0)] + Parse(Body(more, NOTHING).1)
  {
    assert lines[1..] == more;
  }

  method ReadBody(content: string, start: nat) returns (f: Fields, next: nat)
    requires start <= |content|
    ensures start <= next <= |content|
    ensures Body(Lines(content[start..]), NOTHING) == (f, Lines(content[next..]))
  {
    hide Lines, Body, Take;
    f, next := NOTHING, start;
    while next < |content|
      invariant start <= next <= |content|
      invariant Body(Lines(content[start..]), NOTHING) == Body(Lines(content[next..]), f)
      decreases |content| - next
    {
      var line, after := GetLine(content, next);
      BodyStep(Lines(content[next..]), line, Lines(content[after..]), f);
      next := after;
      if line == "$end" {
        return;
      }
      f := Take(f, line);
    }
    NoLines(content[next..]);
    BodyOfNothing(f);
  }

  lemma BodyOfNothing(f: Fields)
    ensures Body([], f) == (f, [])
  {
  }

  lemma {:induction false} ItemsStep(rs: seq<Record>, r: Record, uuid: string)
    ensures Items(rs + [r], uuid) == Items(rs, uuid) + (if rs == [] then "" else ",") + Item(r, uuid)
  {
    hide Item;
    assert (rs + [r])[..|rs|] == rs;
  }

  method PrintItem(r: Record, uuid: string) returns (item: string)
    ensures item == Item(r, uuid)
  {
    var text := JsonEscape(r.text);
    hide Escape;
    item := Field(SENDER, r.who.Sender(uuid));
    item := item + Field(MESSAGE, text);
    item := item + Field(DATE, r.date);
    item := item + Field(TIME, r.time);
    item := item + "}";
  }

  method MakeJsonMessages(content: string, uuid: string) returns (json: string)
    ensures json == Json(Parse(Lines(content)), uuid)
  {
    hide Lines, Parse, Body, Items, Item, TagOf;
    json := "[";
    var first := true;
    var pos := 0;
    ghost var done: seq<Record> := [];
    assert content[0..] == content;
    ItemsOfNothing(uuid);
    while pos < |content|
      invariant 0 <= pos <= |content|
      invariant Parse(Lines(content)) == done + Parse(Lines(content[pos..]))
      invariant json == "[" + Items(done, uuid)
      invariant first <==> done == []
      decreases |content| - pos
    {
      var line, next := GetLine(content, pos);
      ParseStep(Lines(content[pos..]), line, Lines(content[next..]));
      pos := next;
      if TagOf(line) == None {
        continue;
      }
      var f, after := ReadBody(content, pos);
      var r := RecordOf(TagOf(line).value, f);
      if !first {
        json := json + ",";
      }
      var item := PrintItem(r, uuid);
      json := json + item;
      ItemsStep(done, r, uuid);
      first := false;
      done := done + [r];
      pos := after;
    }
    NoLines(content[pos..]);
    ParseOfNothing();
    assert Parse(Lines(content)) == done;
    json := json + "]";
  }

  lemma ItemsOfNothing(uuid: string)
    ensures Items([], uuid) == ""
  {
  }

  lemma ParseOfNothing()
    ensures Parse([]) == []
  {
  }

  // ---- The log round trip

  function RecordLines(r: Record): seq<string> {
    ["", r.who.Tag(), "message:" + r.text, "date:" + r.date, "time:" + r.time, "$end"]
  }

  predicate Plain(r: Record) {
    OneLine(r.text) && OneLine(r.date) && OneLine(r.time)
  }

  class MessageFile {
    var content: string

    constructor ()
      ensures content == ""
    {
      content := "";
    }

    /** The bytes appended: an empty line, the tag of the author, the three fields, the end mark. */
    method SaveMessage(r: Record)
      modifies this
      ensures content == old(content) + Unlines(RecordLines(r))
      ensures content == old(content) + ("\n" + (if r.who.Friend? then "$friend" else "$you") + "\n"
                                         + ("message:" + r.text) + "\n" + ("date:" + r.date) + "\n"
                                         + ("time:" + r.time) + "\n" + "$end" + "\n")
    {
      RecordText(r);
      ghost var before := content;
      ghost var ls: seq<string> := [];
      content := content + ("\n" + r.who.Tag() + "\n");
      ls := Append(before, Append(before, ls, ""), r.who.Tag());
      assert content == before + Unlines(ls);
      hide Unlines;
      content := content + ("message:" + r.text + "\n");
      ls := Append(before, ls, "message:" + r.text);
      content := content + ("date:" + r.date + "\n");
      ls := Append(before, ls, "date:" + r.date);
      content := content + ("time:" + r.time + "\n");
      ls := Append(before, ls, "time:" + r.time);
      content := content + "$end\n";
      ls := Append(before, ls, "$end");
      assert ls == RecordLines(r);
    }
  }

  lemma RecordText(r: Record)
    ensures Unlines(RecordLines(r)) == "\n" + (if r.who.Friend? then "$friend" else "$you") + "\n"
                                       + ("message:" + r.text) + "\n" + ("date:" + r.date) + "\n"
                                       + ("time:" + r.time) + "\n" + "$end" + "\n"
  {
    hide Unlines;
    Tags("");
    SixLines("", r.who.Tag(), "message:" + r.text, "date:" + r.date, "time:" + r.time, "$end");
    assert "" + "\n" == "\n";
  }

  lemma SixLines(a: string, b: string, c: string, d: string, e: string, f: string)
    ensures Unlines([a, b, c, d, e, f]) ==
            a + "\n" + b + "\n" + c + "\n" + d + "\n" + e + "\n" + f + "\n"
  {
    hide Unlines;
    OneMoreLine([], a);
    OneMoreLine([a], b);
    OneMoreLine([a, b], c);
    OneMoreLine([a, b, c], d);
    OneMoreLine([a, b, c, d], e);
    OneMoreLine([a, b, c, d, e], f);
    assert [] + [a] == [a] && "" + a == a;
    assert [a] + [b] == [a, b] && [a, b] + [c] == [a, b, c] && [a, b, c] + [d] == [a, b, c, d];
    assert [a, b, c, d] + [e] == [a, b, c, d, e] && [a, b, c, d, e] + [f] == [a, b, c, d, e, f];
  }

  lemma OneMoreLine(ls: seq<string>, line: string)
    ensures Unlines(ls + [line]) == Unlines(ls) + line + "\n" && Unlines([]) == ""
  {
    UnlinesAppend(ls, line);
    hide Unlines;
    assert Unlines(ls) + (line + "\n") == Unlines(ls) + line + "\n";
  }

  /** One more line at the end of a file. */
  ghost function Append(before: string, ls: seq<string>, line: string): (more: seq<string>)
    ensures more == ls + [line]
    ensures before + Unlines(more) == (before + Unlines(ls)) + (line + "\n")
  {
    UnlinesAppend(ls, line);
    ls + [line]
  }

  lemma {:induction false} UnlinesAppend(ls: seq<string>, line: string)
    ensures Unlines(ls + [line]) == Unlines(ls) + (line + "\n")
    ensures Unlines([]) == ""
    decreases |ls|
  {
    if ls == [] {
      assert (ls + [line])[1..] == [];
    } else {
      assert (ls + [line])[1..] == ls[1..] + [line];
      UnlinesAppend(ls[1..], line);
    }
  }

  /** A log is a list of saved records with junk lines anywhere between them. */
  datatype Segment = Saved(r: Record) | Junk(line: string) {
    predicate Ok() {
      match this
      case Saved(r) => Plain(r)
      case Junk(line) => OneLine(line) && TagOf(line) == None
    }

    function Text(): seq<string> {
      match this
      case Saved(r) => RecordLines(r)
      case Junk(line) => [line]
    }
  }

  function Content(segments: seq<Segment>): string {
    if segments == [] then "" else Unlines(segments[0].Text()) + Content(segments[1..])
  }

  function SavedRecords(segments: seq<Segment>): seq<Record> {
    if segments == [] then []
    else (if segments[0].Saved? then [segments[0].r] else []) + SavedRecords(segments[1..])
  }

  lemma {:induction false} ParseRecord(r: Record, more: seq<string>)
    ensures Parse(RecordLines(r) + more) == [r] + Parse(more)
  {
    var ls := RecordLines(r) + more;
    assert TagOf("") == None;
    assert Parse(ls) == Parse(ls[1..]);
    assert TagOf(ls[1]) == Some(r.who);
    var f0 := NOTHING;
    var f1 := f0.(text := r.text);
    var f2 := f1.(date := r.date);
    var f3 := f2.(time := r.time);
    assert Take(f0, ls[2]) == f1 by { assert ls[2][8..] == r.text; }
    assert Take(f1, ls[3]) == f2 by { assert ls[3][..5] == "date:"; assert ls[3][5..] == r.date; assert ls[3][0] == 'd'; }
    assert Take(f2, ls[4]) == f3 by { assert ls[4][..5] == "time:"; assert ls[4][5..] == r.time; assert ls[4][0] == 't'; }
    assert ls[2] != "$end" by { assert ls[2][0] == 'm'; }
    assert ls[3] != "$end" by { assert ls[3][0] == 'd'; }
    assert ls[4] != "$end" by { assert ls[4][0] == 't'; }
    assert Body(ls[2..], f0) == Body(ls[3..], f1) by { assert ls[2..][1..] == ls[3..]; }
    assert Body(ls[3..], f1) == Body(ls[4..], f2) by { assert ls[3..][1..] == ls[4..]; }
    assert Body(ls[4..], f2) == Body(ls[5..], f3) by { assert ls[4..][1..] == ls[5..]; }
    assert Body(ls[5..], f3) == (f3, more) by { assert ls[5..][1..] == more; }
    assert ls[1..][1..] == ls[2..];
  }

  lemma {:induction false} ParseSegment(s: Segment, more: seq<string>)
    requires s.Ok()
    ensures Parse(s.Text() + more) == (if s.Saved? then [s.r] else []) + Parse(more)
  {
    match s
    case Saved(r) => ParseRecord(r, more);
    case Junk(line) => ParseStep([line] + more, line, more);
  }

  lemma SegmentIsOneLine(s: Segment)
    requires s.Ok()
    ensures forall i :: 0 <= i < |s.Text()| ==> OneLine(s.Text()[i])
  {
  }

  /** What was saved is what is read, in order, whatever junk lies between. */
  lemma {:induction false} LogRoundTrip(segments: seq<Segment>)
    requires forall i :: 0 <= i < |segments| ==> segments[i].Ok()
    ensures Parse(Lines(Content(segments))) == SavedRecords(segments)
    decreases |segments|
  {
    hide Parse, Lines, RecordLines, Plain, OneLine, TagOf;
    if segments == [] {
      NoLines(Content(segments));
      ParseOfNothing();
    } else {
      var s, more := segments[0], segments[1..];
      assert s.Ok();
      LogRoundTrip(more);
      SegmentIsOneLine(s);
      LinesOfUnlines(s.Text(), Content(more));
      ParseSegment(s, Lines(Content(more)));
    }
  }

  lemma {:induction false} BodyIsOneLine(lines: seq<string>, f: Fields)
    requires forall i :: 0 <= i < |lines| ==> OneLine(lines[i])
    requires OneLine(f.text)
    ensures OneLine(Body(lines, f).0.text)
    ensures forall i :: 0 <= i < |Body(lines, f).1| ==> OneLine(Body(lines, f).1[i])
    decreases |lines|
  {
    if lines != [] && lines[0] != "$end" {
      assert OneLine(lines[0]);
      assert OneLine(Take(f, lines[0]).text);
      BodyIsOneLine(lines[1..], Take(f, lines[0]));
    }
  }

  lemma {:induction false} ParseIsOneLine(lines: seq<string>)
    requires forall i :: 0 <= i < |lines| ==> OneLine(lines[i])
    ensures forall i :: 0 <= i < |Parse(lines)| ==> OneLine(Parse(lines)[i].text)
    decreases |lines|
  {
    if lines != [] {
      if TagOf(lines[0]) == None {
        ParseIsOneLine(lines[1..]);
      } else {
        BodyIsOneLine(lines[1..], NOTHING);
        var (f, rest) := Body(lines[1..], NOTHING);
        ParseIsOneLine(rest);
          assert Parse(lines) == [RecordOf(TagOf(lines[0]).value, f)] + Parse(rest);
      }
    }
  }

  function LogOf(rs: seq<Record>): seq<Segment> {
    seq(|rs|, i requires 0 <= i < |rs| => Saved(rs[i]))
  }

  lemma {:induction false} SavedRecordsOfLog(rs: seq<Record>)
    ensures SavedRecords(LogOf(rs)) == rs
    decreases |rs|
  {
    if rs != [] {
      SavedRecordsOfLog(rs[1..]);
      assert LogOf(rs)[1..] == LogOf(rs[1..]);
    }
  }

  /** The log gives its records back exactly when no text contains a newline. The date and time come from
      `strftime` and never do. */
  lemma LogFaithfulIffOneLine(rs: seq<Record>)
    requires forall i :: 0 <= i < |rs| ==> OneLine(rs[i].date) && OneLine(rs[i].time)
    ensures Parse(Lines(Content(LogOf(rs)))) == rs <==> forall i :: 0 <= i < |rs| ==> OneLine(rs[i].text)
  {
    var lines := Lines(Content(LogOf(rs)));
    LinesAreOneLine(Content(LogOf(rs)));
    ParseIsOneLine(lines);
    if forall i :: 0 <= i < |rs| ==> OneLine(rs[i].text) {
      forall i | 0 <= i < |rs|
        ensures LogOf(rs)[i].Ok()
      {
        assert OneLine(rs[i].text);
      }
      LogRoundTrip(LogOf(rs));
      SavedRecordsOfLog(rs);
    }
  }

  lemma {:induction false} SaveExtendsLog(rs: seq<Record>, r: Record)
    ensures Content(LogOf(rs + [r])) == Content(LogOf(rs)) + Unlines(RecordLines(r))
    decreases |rs|
  {
    hide RecordLines, Unlines;
    var log := LogOf(rs + [r]);
    if rs == [] {
      assert log == [Saved(r)];
      assert log[1..] == [];
    } else {
      SaveExtendsLog(rs[1..], r);
      assert log[0] == Saved(rs[0]) && LogOf(rs)[0] == Saved(rs[0]);
      assert log[1..] == LogOf(rs[1..] + [r]) by { assert (rs + [r])[1..] == rs[1..] + [r]; }
      assert LogOf(rs)[1..] == LogOf(rs[1..]);
    }
  }

  // ---- Reading the printed array back

  datatype Message = Message(sender: string, text: string, date: string, time: string)

  function Expect(s: string, word: string): Option<string> {
    if word <= s then Some(s[|word|..]) else None
  }

  function ReadMessage(s: string): Option<(Message, string)> {
    var (sender, s1) :- ReadField(s, SENDER);
    var (text, s2) :- ReadField(s1, MESSAGE);
    var (date, s3) :- ReadField(s2, DATE);
    var (time, s4) :- ReadField(s3, TIME);
    var rest :- Expect(s4, "}");
    Some((Message(sender, text, date, time), rest))
  }

  /** The messages of an array after its opening bracket; `fuel` bounds their number. */
  function ReadMessages(s: string, fuel: nat): Option<seq<Message>>
    decreases fuel
  {
    if s == "]" then Some([])
    else if fuel == 0 then None
    else
      var (m, rest) :- ReadMessage(s);
      if rest == "]" then Some([m])
      else
        var next :- Expect(rest, ",");
        var ms :- ReadMessages(next, fuel - 1);
        Some([m] + ms)
  }

  function ReadArray(json: string): Option<seq<Message>> {
    var s :- Expect(json, "[");
    ReadMessages(s, |s|)
  }

  predicate Literal(s: string) {
    Escape(s) == s && Clean(s)
  }

  /** What a reader should see: the friend's messages under the friend's number, one's own under "you". */
  function MessageOf(r: Record, uuid: string): Message {
    Message(if r.who == Friend then uuid else "you", r.text, r.date, r.time)
  }

  function MessagesOf(rs: seq<Record>, uuid: string): seq<Message> {
    seq(|rs|, i requires 0 <= i < |rs| => MessageOf(rs[i], uuid))
  }

  predicate Readable(r: Record) {
    Clean(r.text) && Literal(r.date) && Literal(r.time)
  }

  lemma YouIsLiteral()
    ensures Literal("you")
  {
    assert Escape("u") == "u";
    assert Escape("ou") == "ou" by { assert "ou"[1..] == "u"; }
    assert Escape("you") == "you" by { assert "you"[1..] == "ou"; }
  }

  lemma ExpectAt(word: string, more: string)
    ensures Expect(word + more, word) == Some(more)
  {
    assert (word + more)[..|word|] == word && (word + more)[|word|..] == more;
  }

  lemma FieldRoundTrip(key: string, value: string, more: string)
    requires Clean(value)
    ensures Expect(Field(key, Escape(value)) + more, key) == Some(Escape(value) + "\"" + more)
    ensures ReadString(Escape(value) + "\"" + more) == Some((value, more))
  {
    hide Escape, ReadString, Expect;
    EscapeRoundTrip(value, more);
    ExpectAt(key, Escape(value) + "\"" + more);
    assert Field(key, Escape(value)) + more == key + (Escape(value) + "\"" + more);
  }

  function ReadField(s: string, key: string): Option<(string, string)> {
    var s1 :- Expect(s, key);
    ReadString(s1)
  }

  lemma ReadFieldRoundTrip(key: string, value: string, more: string)
    requires Clean(value)
    ensures ReadField(Field(key, Escape(value)) + more, key) == Some((value, more))
  {
    hide Escape, ReadString, Expect, Field, Clean;
    FieldRoundTrip(key, value, more);
  }

  lemma ItemRoundTrip(r: Record, uuid: string, rest: string)
    requires Readable(r) && Literal(uuid)
    ensures ReadMessage(Item(r, uuid) + rest) == Some((MessageOf(r, uuid), rest))
  {
    YouIsLiteral();
    hide Escape, ReadField, Expect, Clean, Field;
    var sender := r.who.Sender(uuid);
    assert Literal(sender);
    var t9 := "}" + rest;
    var t7 := Field(TIME, r.time) + t9;
    var t5 := Field(DATE, r.date) + t7;
    var t3 := Field(MESSAGE, Escape(r.text)) + t5;
    var t1 := Field(SENDER, sender) + t3;
    Flatten(Field(SENDER, sender), Field(MESSAGE, Escape(r.text)), Field(DATE, r.date), Field(TIME, r.time), "}", rest);
    ReadFieldRoundTrip(SENDER, sender, t3);
    ReadFieldRoundTrip(MESSAGE, r.text, t5);
    ReadFieldRoundTrip(DATE, r.date, t7);
    ReadFieldRoundTrip(TIME, r.time, t9);
    ExpectAt("}", rest);
  }

  lemma Flatten(a: string, b: string, c: string, d: string, e: string, rest: string)
    ensures a + b + c + d + e + rest == a + (b + (c + (d + (e + rest))))
  {
  }

  lemma {:induction false} ItemsFront(rs: seq<Record>, uuid: string)
    requires |rs| >= 2
    ensures Items(rs, uuid) == Item(rs[0], uuid) + "," + Items(rs[1..], uuid)
    decreases |rs|
  {
    hide Item;
    var init, last := rs[..|rs| - 1], rs[|rs| - 1];
    if |rs| == 2 {
      assert init == [rs[0]] && rs[1..] == [last];
    } else {
      ItemsFront(init, uuid);
      var tail := rs[1..];
      assert tail[..|tail| - 1] == init[1..] && tail[|tail| - 1] == last;
      var x, y, z := Item(rs[0], uuid), Items(init[1..], uuid), Item(last, uuid);
      assert Items(tail, uuid) == y + "," + z;
      assert Items(rs, uuid) == (x + "," + y) + "," + z;
      assert (x + "," + y) + "," + z == x + "," + (y + "," + z);
    }
  }

  lemma ItemStart(r: Record, uuid: string, rest: string)
    ensures Item(r, uuid) + rest != "]"
  {
    assert |Item(r, uuid)| >= 2;
  }

  lemma ReadMessagesLast(r: Record, uuid: string, fuel: nat)
    requires Readable(r) && Literal(uuid) && fuel >= 1
    ensures ReadMessages(Item(r, uuid) + "]", fuel) == Some([MessageOf(r, uuid)])
  {
    ItemRoundTrip(r, uuid, "]");
    ItemStart(r, uuid, "]");
    hide ReadMessage, Item, Readable, Literal, MessageOf;
  }

  lemma ReadMessagesMore(r: Record, uuid: string, next: string, fuel: nat)
    requires Readable(r) && Literal(uuid) && fuel >= 1
    ensures ReadMessages(Item(r, uuid) + ("," + next), fuel) ==
            match ReadMessages(next, fuel - 1)
            case None => None
            case Some(ms) => Some([MessageOf(r, uuid)] + ms)
  {
    ItemRoundTrip(r, uuid, "," + next);
    ItemStart(r, uuid, "," + next);
    ExpectAt(",", next);
    hide ReadMessage, Item, Readable, Literal, MessageOf, Expect;
    assert ("," + next)[0] == ',';
  }

  lemma {:induction false} ItemsRoundTrip(rs: seq<Record>, uuid: string, fuel: nat)
    requires forall i :: 0 <= i < |rs| ==> Readable(rs[i])
    requires Literal(uuid) && fuel >= |rs|
    ensures ReadMessages(Items(rs, uuid) + "]", fuel) == Some(MessagesOf(rs, uuid))
    decreases |rs|
  {
    hide ReadMessage, Item, Readable, Literal, MessageOf;
    if rs == [] {
      assert Items(rs, uuid) + "]" == "]";
    } else {
      var m := MessageOf(rs[0], uuid);
      assert Readable(rs[0]);
      if |rs| == 1 {
        hide ReadMessages;
        ReadMessagesLast(rs[0], uuid, fuel);
        assert MessagesOf(rs, uuid) == [m];
      } else {
        hide ReadMessages, Items, MessagesOf;
        ItemsThenEnd(rs, uuid);
        ReadMessagesMore(rs[0], uuid, Items(rs[1..], uuid) + "]", fuel);
        ItemsRoundTrip(rs[1..], uuid, fuel - 1);
        MessagesFront(rs, uuid);
      }
    }
  }

  lemma ItemsThenEnd(rs: seq<Record>, uuid: string)
    requires |rs| >= 2
    ensures Items(rs, uuid) + "]" == Item(rs[0], uuid) + ("," + (Items(rs[1..], uuid) + "]"))
  {
    hide Items, Item;
    ItemsFront(rs, uuid);
    FourParts(Item(rs[0], uuid), ",", Items(rs[1..], uuid), "]");
  }

  lemma FourParts(a: string, b: string, c: string, d: string)
    ensures a + b + c + d == a + (b + (c + d))
  {
  }

  lemma MessagesFront(rs: seq<Record>, uuid: string)
    requires rs != []
    ensures MessagesOf(rs, uuid) == [MessageOf(rs[0], uuid)] + MessagesOf(rs[1..], uuid)
  {
    hide MessageOf;
  }

  lemma {:induction false} ItemsAreLong(rs: seq<Record>, uuid: string)
    ensures |Items(rs, uuid)| >= |rs|
    decreases |rs|
  {
    if |rs| > 1 {
      ItemsAreLong(rs[..|rs| - 1], uuid);
    }
  }

  /** `ms` are the records as a reader sees them: the friend's under the friend's number, one's own under "you". */
  ghost predicate Shows(ms: seq<Message>, rs: seq<Record>, uuid: string) {
    |ms| == |rs| && forall i :: 0 <= i < |rs| ==>
      && ms[i].sender == (match rs[i].who case Friend => uuid case You => "you")
      && ms[i].text == rs[i].text && ms[i].date == rs[i].date && ms[i].time == rs[i].time
  }

  /** The printed array, read by a JSON reader, holds exactly the records, in order, each under its author. */
  lemma JsonRoundTrip(rs: seq<Record>, uuid: string)
    requires forall i :: 0 <= i < |rs| ==> Readable(rs[i])
    requires Literal(uuid)
    ensures ReadArray(Json(rs, uuid)) == Some(MessagesOf(rs, uuid)) && Shows(MessagesOf(rs, uuid), rs, uuid)
  {
    assert Shows(MessagesOf(rs, uuid), rs, uuid);
    hide Items, ReadMessages, MessagesOf, Readable, Literal, Expect;
    var s := Items(rs, uuid) + "]";
    assert Json(rs, uuid) == "[" + s;
    ExpectAt("[", s);
    ItemsAreLong(rs, uuid);
    ItemsRoundTrip(rs, uuid, |s|);
  }

  /** A run of saves from an empty log, then one read. */
  method SaveAllThenRead(rs: seq<Record>, uuid: string) returns (json: string)
    requires forall i :: 0 <= i < |rs| ==> Plain(rs[i])
    ensures json == Json(rs, uuid)
    ensures (forall i :: 0 <= i < |rs| ==> Readable(rs[i])) && Literal(uuid) ==>
              ReadArray(json).Some? && Shows(ReadArray(json).value, rs, uuid)
  {
    var file := new MessageFile();
    for i := 0 to |rs|
      invariant file.content == Content(LogOf(rs[..i]))
    {
      assert rs[..i + 1] == rs[..i] + [rs[i]];
      file.SaveMessage(rs[i]);
      SaveExtendsLog(rs[..i], rs[i]);
    }
    assert rs[..|rs|] == rs;
    LogFaithfulIffOneLine(rs);
    json := MakeJsonMessages(file.content, uuid);
    if (forall i :: 0 <= i < |rs| ==> Readable(rs[i])) && Literal(uuid) {
      JsonRoundTrip(rs, uuid);
    }
  }
}
