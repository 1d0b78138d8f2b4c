/** How the local web server gathers a request from the pieces the socket delivers (`handle_read`). */
module HttpRequest {
  import opened Bytes
  import opened TextReplace

  const BLANK_LINE := "\r\n\r\n"
  const LENGTH_NAME := "Content-Length: "
  const ULONG := 0x1_0000_0000

  /** The leftmost occurrence from `from` on. */
  function Index(s: string, p: string, from: nat): (r: Option<nat>)
    ensures r.Some? ==> OccursAt(s, p, r.value)
    decreases |s| - from
  {
    if from + |p| > |s| then None
    else if OccursAt(s, p, from) then Some(from)
    else Index(s, p, from + 1)
  }

  lemma {:induction false} IndexIsFirst(s: string, p: string, from: nat)
    ensures match Index(s, p, from)
            case Some(i) => FirstAt(s, p, from, i)
            case None => Absent(s, p, from)
    decreases |s| - from
  {
    if from + |p| <= |s| && !OccursAt(s, p, from) {
      IndexIsFirst(s, p, from + 1);
    }
  }

  lemma FoundIsIndex(s: string, p: string, at: Option<nat>)
    requires at.Some? ==> FirstAt(s, p, 0, at.value)
    requires at.None? ==> Absent(s, p, 0)
    ensures at == Index(s, p, 0)
  {
    IndexIsFirst(s, p, 0);
  }

  predicate IsDigit(c: char) { '0' <= c <= '9' }

  /** What `isspace` accepts. */
  predicate IsBlank(c: char) { c == ' ' || '\t' <= c <= '\r' }

  /** How many characters at the start satisfy `p`. */
  function Span(s: string, p: char -> bool): (n: nat)
    ensures n <= |s| && (forall i :: 0 <= i < n ==> p(s[i])) && (n < |s| ==> !p(s[n]))
  {
    if s == "" || !p(s[0]) then 0 else 1 + Span(s[1..], p)
  }

  function Value(digits: string): nat
    requires forall i :: 0 <= i < |digits| ==> IsDigit(digits[i])
  {
    if digits == "" then 0
    else
      var last := digits[|digits| - 1];
      assert IsDigit(last);
      Value(digits[..|digits| - 1]) * 10 + (last as nat - '0' as nat)
  }

  predicate Signed(s: string) {
    s != "" && (s[0] == '+' || s[0] == '-')
  }

  function Trimmed(s: string): string {
    s[Span(s, IsBlank)..]
  }

  /** The conversion from the digits on: a negative number wraps around. */
  function ConvertDigits(minus: bool, digits: string): Option<nat> {
    var n := Span(digits, IsDigit);
    if n == 0 || Value(digits[..n]) >= ULONG then None
    else Some(if minus then (ULONG - Value(digits[..n])) % ULONG else Value(digits[..n]))
  }

  function Convert(s: string): Option<nat> {
    if Signed(s) then ConvertDigits(s[0] == '-', s[1..]) else ConvertDigits(false, s)
  }

  /** `std::stoul` where `unsigned long` has 32 bits: blanks and a sign may stand in front; without a digit or
      beyond the range the conversion throws. */
  function Number(s: string): Option<nat> {
    Convert(Trimmed(s))
  }

  // ---- Decimal numbers, as they are printed

  function Printed(n: nat): (s: string)
    ensures s != "" && forall i :: 0 <= i < |s| ==> '0' <= s[i] <= '9'
  {
    var last := [('0' as int + n % 10) as char];
    if n < 10 then last else Printed(n / 10) + last
  }

  lemma {:induction false} ValueOfPrinted(n: nat)
    ensures Value(Printed(n)) == n
  {
    var s := Printed(n);
    if n >= 10 {
      assert s[..|s| - 1] == Printed(n / 10);
      ValueOfPrinted(n / 10);
    } else {
      assert s[..0] == "";
    }
  }

  lemma {:induction false} ValueOfZeros(zeros: string, digits: string)
    requires forall i :: 0 <= i < |zeros| ==> zeros[i] == '0'
    requires forall i :: 0 <= i < |digits| ==> '0' <= digits[i] <= '9'
    ensures Value(zeros + digits) == Value(digits)
    decreases |zeros| + |digits|
  {
    if digits != "" {
      var init := digits[..|digits| - 1];
      assert (zeros + digits)[..|zeros + digits| - 1] == zeros + init;
      ValueOfZeros(zeros, init);
    } else if zeros != "" {
      assert zeros + digits == zeros && zeros[..|zeros| - 1] + "" == zeros[..|zeros| - 1];
      ValueOfZeros(zeros[..|zeros| - 1], "");
    }
  }

  lemma {:induction false} SpanIs(s: string, p: char -> bool, n: nat)
    requires n <= |s| && (forall i :: 0 <= i < n ==> p(s[i])) && (n < |s| ==> !p(s[n]))
    ensures Span(s, p) == n
    decreases |s|
  {
    if n > 0 {
      SpanIs(s[1..], p, n - 1);
    }
  }

  predicate Spaces(s: string) {
    forall i :: 0 <= i < |s| ==> s[i] == ' ' || '\t' <= s[i] <= '\r'
  }

  predicate NoDigitFirst(s: string) {
    s != "" ==> !('0' <= s[0] <= '9')
  }

  lemma DigitsAre(digits: string, rest: string)
    requires (forall i :: 0 <= i < |digits| ==> '0' <= digits[i] <= '9') && NoDigitFirst(rest)
    ensures Span(digits + rest, IsDigit) == |digits| && (digits + rest)[..|digits|] == digits
  {
    SpanIs(digits + rest, IsDigit, |digits|);
  }

  lemma TrimmedIs(blanks: string, s: string)
    requires Spaces(blanks) && (s != "" ==> !Spaces([s[0]]))
    ensures Trimmed(blanks + s) == s
  {
    if s != "" {
      assert [s[0]][0] == s[0];
    }
    SpanIs(blanks + s, IsBlank, |blanks|);
    hide Span;
  }

  lemma ConvertDigitsIs(minus: bool, digits: string, rest: string)
    requires digits != "" && (forall i :: 0 <= i < |digits| ==> '0' <= digits[i] <= '9') && NoDigitFirst(rest)
    ensures ConvertDigits(minus, digits + rest) ==
            if Value(digits) >= 4294967296 then None
            else Some(if minus then (4294967296 - Value(digits)) % 4294967296 else Value(digits))
  {
    DigitsAre(digits, rest);
    hide Value, Span;
  }

  lemma ConvertIs(sign: string, zeros: string, n: nat, rest: string)
    requires sign in {"", "+", "-"} && (forall i :: 0 <= i < |zeros| ==> zeros[i] == '0') && NoDigitFirst(rest)
    ensures Convert(sign + (zeros + Printed(n) + rest)) ==
            if n >= 4294967296 then None else Some(if sign == "-" then (4294967296 - n) % 4294967296 else n)
  {
    hide Value, Convert, Printed;
    var digits := zeros + Printed(n);
    ValueOfPrinted(n);
    ValueOfZeros(zeros, Printed(n));
    ConvertDigitsIs(sign == "-", digits, rest);
    SignIs(sign, digits, rest);
  }

  lemma SignIs(sign: string, digits: string, rest: string)
    requires sign in {"", "+", "-"} && digits != "" && '0' <= digits[0] <= '9'
    ensures Convert(sign + (digits + rest)) == ConvertDigits(sign == "-", digits + rest)
  {
    var s := sign + (digits + rest);
    hide ConvertDigits;
    if sign == "" {
      assert s == digits + rest && s[0] == digits[0];
    } else {
      assert s[0] == sign[0] && s[1..] == digits + rest;
    }
  }

  /** What `std::stoul` makes of blanks, an optional sign, leading zeros and a printed number: the number itself,
      wrapped around after a minus, or a failure when it needs more than 32 bits. */
  lemma NumberReads(blanks: string, sign: string, zeros: string, n: nat, rest: string)
    requires Spaces(blanks) && sign in {"", "+", "-"} && (forall i :: 0 <= i < |zeros| ==> zeros[i] == '0')
    requires NoDigitFirst(rest)
    ensures Number(blanks + (sign + (zeros + Printed(n) + rest))) ==
            if n >= 4294967296 then None else Some(if sign == "-" then (4294967296 - n) % 4294967296 else n)
  {
    var s := sign + (zeros + Printed(n) + rest);
    assert s != "" && !Spaces([s[0]]) by {
      assert [s[0]][0] == s[0];
    }
    TrimmedIs(blanks, s);
    ConvertIs(sign, zeros, n, rest);
    hide Trimmed, Convert, Printed;
  }

  /** Without a digit behind the blanks and the sign it fails. */
  lemma NumberFails(blanks: string, sign: string, rest: string)
    requires Spaces(blanks) && sign in {"", "+", "-"} && NoDigitFirst(rest)
    requires sign == "" && rest != "" ==> !Spaces([rest[0]]) && rest[0] != '+' && rest[0] != '-'
    ensures Number(blanks + (sign + rest)) == None
  {
    var s := sign + rest;
    if s != "" {
      assert [s[0]][0] == s[0];
    }
    TrimmedIs(blanks, s);
    hide Trimmed;
    DigitsAre("", rest);
    assert "" + rest == rest;
    if sign != "" {
      assert s[1..] == rest;
    }
  }

  /** The number behind the first occurrence of `name`, zero when there is none. */
  function Announced(s: string, name: string): Option<nat> {
    match Index(s, name, 0)
    case None => Some(0)
    case Some(i) => Number(s[i + |name|..])
  }

  /** The announced body length of what has arrived so far. */
  function Declared(s: string): Option<nat> {
    Announced(s, LENGTH_NAME)
  }

  datatype Verdict = More | Complete | Throws

  function Decide(s: string): Verdict {
    match Index(s, BLANK_LINE, 0)
    case None => More
    case Some(h) =>
      match Declared(s)
      case None => Throws
      case Some(n) => if |s| - h - 4 < n then More else Complete
  }

  class Connection {
    var fullRequest: string

    constructor ()
      ensures fullRequest == ""
    {
      fullRequest := "";
    }

    method HandleRead(piece: string) returns (verdict: Verdict)
      modifies this
      ensures fullRequest == old(fullRequest) + piece && verdict == Decide(fullRequest)
    {
      hide Index;
      fullRequest := fullRequest + piece;
      var headerEnd := Find(fullRequest, BLANK_LINE, 0);
      FoundIsIndex(fullRequest, BLANK_LINE, headerEnd);
      if headerEnd.None? {
        return More;
      }
      var contentLength: nat := 0;
      var clPos := Find(fullRequest, LENGTH_NAME, 0);
      FoundIsIndex(fullRequest, LENGTH_NAME, clPos);
      if clPos.Some? {
        var n := Number(fullRequest[clPos.value + |LENGTH_NAME|..]);
        if n.None? {
          return Throws;
        }
        contentLength := n.value;
      }
      var bodyReceived := |fullRequest| - headerEnd.value - 4;
      verdict := if bodyReceived < contentLength then More else Complete;
    }
  }

  // ---- Over all ways to cut a request into pieces

  /** The text that is acted on when the pieces arrive one after the other, if any is. */
  function Gather(arrived: string, pieces: seq<string>): Option<string>
    decreases |pieces|
  {
    if pieces == [] then None
    else
      var s := arrived + pieces[0];
      match Decide(s)
      case More => Gather(s, pieces[1..])
      case Complete => Some(s)
      case Throws => None
  }

  function Whole(pieces: seq<string>): string {
    if pieces == [] then "" else pieces[0] + Whole(pieces[1..])
  }

  predicate NonEmpty(pieces: seq<string>) {
    forall i :: 0 <= i < |pieces| ==> pieces[i] != ""
  }

  /** The header part of a request, with the blank line that ends it, and the length it announces in digits. */
  ghost predicate HeaderOf(header: string, n: nat) {
    && |header| >= 4 && Index(header, BLANK_LINE, 0) == Some(|header| - 4)
    && Declared(header) == Some(n)
  }

  lemma OccursInPrefix(s: string, more: string, p: string, i: nat)
    requires i + |p| <= |s|
    ensures OccursAt(s + more, p, i) == OccursAt(s, p, i)
  {
    assert (s + more)[i..i + |p|] == s[i..i + |p|];
  }

  /** An occurrence found in a text is found at the same place in every longer text. */
  lemma IndexGrows(s: string, more: string, p: string)
    requires Index(s, p, 0).Some?
    ensures Index(s + more, p, 0) == Index(s, p, 0)
  {
    IndexIsFirst(s, p, 0);
    IndexIsFirst(s + more, p, 0);
    hide Index;
    var i := Index(s, p, 0).value;
    OccursInPrefix(s, more, p, i);
    forall j | 0 <= j < i
      ensures !OccursAt(s + more, p, j)
    {
      OccursInPrefix(s, more, p, j);
    }
  }

  /** The length announced in the header stays what it is, whatever of the body has arrived. */
  lemma DeclaredGrows(header: string, more: string, n: nat)
    requires HeaderOf(header, n) && Index(header, LENGTH_NAME, 0).Some?
    ensures Declared(header + more) == Some(n)
  {
    EndsInNewline(header, n);
    hide Announced, Index;
    AnnouncedGrows(header, more, LENGTH_NAME);
  }

  lemma AnnouncedGrows(s: string, more: string, name: string)
    requires s != "" && s[|s| - 1] == '\n'
    requires Index(s, name, 0).Some? && Announced(s, name).Some?
    ensures Announced(s + more, name) == Announced(s, name)
  {
    hide *;
    IndexGrows(s, more, name);
    AnnouncedAt(s, name);
    AnnouncedAt(s + more, name);
    var i := Index(s, name, 0).value + |name|;
    TailGrows(s, more, i);
    NumberGrows(s[i..], more);
  }

  lemma AnnouncedAt(s: string, name: string)
    requires Index(s, name, 0).Some?
    ensures var i := Index(s, name, 0).value + |name|;
            i <= |s| && Announced(s, name) == Number(s[i..])
  {
    hide Number;
  }

  lemma TailGrows(s: string, more: string, i: nat)
    requires i <= |s|
    ensures (s + more)[i..] == s[i..] + more
    ensures s[i..] == "" || s[i..][|s[i..]| - 1] == s[|s| - 1]
  {
  }

  lemma EndsInNewline(header: string, n: nat)
    requires HeaderOf(header, n)
    ensures header[|header| - 1] == '\n'
  {
    assert OccursAt(header, BLANK_LINE, |header| - 4);
    hide Index, Declared;
    assert header[|header| - 1] == header[|header| - 4..|header|][3];
  }

  lemma {:induction false} SpanGrows(s: string, more: string, p: char -> bool)
    requires Span(s, p) < |s|
    ensures Span(s + more, p) == Span(s, p)
    decreases |s|
  {
    if p(s[0]) {
      assert (s + more)[1..] == s[1..] + more;
      SpanGrows(s[1..], more, p);
    }
  }

  /** Digits before a line end are read the same whatever follows. */
  lemma DigitsGrow(s: string, more: string)
    requires s != "" && s[|s| - 1] == '\n'
    ensures Span(s + more, IsDigit) == Span(s, IsDigit)
    ensures (s + more)[..Span(s, IsDigit)] == s[..Span(s, IsDigit)]
  {
    SpanGrows(s, more, IsDigit);
  }

  lemma TrimmedGrows(s: string, more: string)
    requires s != "" && s[|s| - 1] == '\n' && Trimmed(s) != ""
    ensures Trimmed(s + more) == Trimmed(s) + more
    ensures Trimmed(s)[|Trimmed(s)| - 1] == '\n' && !IsBlank(Trimmed(s)[0])
  {
    SpanGrows(s, more, IsBlank);
    hide Span;
  }

  lemma ConvertGrows(s: string, more: string)
    requires s != "" && s[|s| - 1] == '\n' && !IsBlank(s[0])
    ensures Convert(s + more) == Convert(s)
  {
    assert (s + more)[0] == s[0];
    if Signed(s) {
      assert (s + more)[1..] == s[1..] + more;
      DigitsGrow(s[1..], more);
    } else {
      DigitsGrow(s, more);
    }
    hide Span, Value;
  }

  lemma NumberGrows(s: string, more: string)
    requires s == "" || s[|s| - 1] == '\n'
    requires Number(s).Some?
    ensures Number(s + more) == Number(s)
  {
    if s == "" || Trimmed(s) == "" {
      NothingToConvert(s);
    }
    hide Trimmed, Convert;
    TrimmedGrows(s, more);
    ConvertGrows(Trimmed(s), more);
  }

  lemma NothingToConvert(s: string)
    requires s == "" || Trimmed(s) == ""
    ensures Number(s) == None
  {
  }

  lemma NoBlankLineYet(header: string, n: nat, k: nat)
    requires HeaderOf(header, n) && k < |header|
    ensures Index(header[..k], BLANK_LINE, 0) == None
  {
    var s := header[..k];
    IndexIsFirst(s, BLANK_LINE, 0);
    IndexIsFirst(header, BLANK_LINE, 0);
    hide Index;
    if Index(s, BLANK_LINE, 0).Some? {
      var i := Index(s, BLANK_LINE, 0).value;
      assert header == s + header[k..];
      OccursInPrefix(s, header[k..], BLANK_LINE, i);
    }
  }

  /** What is decided about a proper prefix and about the whole. */
  lemma DecideOnPrefix(header: string, n: nat, body: string, k: nat)
    requires HeaderOf(header, n) && k <= |header| + |body|
    ensures k < |header| ==> Decide((header + body)[..k]) == More
    ensures k >= |header| && (Index(header, LENGTH_NAME, 0).Some? || k == |header|) ==>
              Decide((header + body)[..k]) == if k - |header| < n then More else Complete
  {
    hide Index, Decide;
    var s := (header + body)[..k];
    if k < |header| {
      assert s == header[..k];
      NoBlankLineYet(header, n, k);
      NothingFound(s);
    } else {
      var more := body[..k - |header|];
      assert s == header + more;
      if Index(header, LENGTH_NAME, 0).Some? || k == |header| {
        DecideAfterHeader(header, n, more);
      }
    }
  }

  lemma NothingFound(s: string)
    requires Index(s, BLANK_LINE, 0) == None
    ensures Decide(s) == More
  {
  }

  lemma DecideAfterHeader(header: string, n: nat, more: string)
    requires HeaderOf(header, n)
    requires Index(header, LENGTH_NAME, 0).Some? || more == ""
    ensures Decide(header + more) == if |more| < n then More else Complete
  {
    IndexGrows(header, more, BLANK_LINE);
    if Index(header, LENGTH_NAME, 0).Some? {
      DeclaredGrows(header, more, n);
    } else {
      assert header + more == header;
    }
    hide Index, Declared;
  }

  /** While something is still missing more is read; the whole request, and nothing shorter, is acted on. */
  lemma {:induction false} GatherWhole(header: string, n: nat, body: string, arrived: string, pieces: seq<string>)
    requires HeaderOf(header, n) && n == |body|
    requires NonEmpty(pieces) && pieces != [] && arrived + Whole(pieces) == header + body
    ensures Gather(arrived, pieces) == Some(header + body)
    decreases |pieces|
  {
    hide Index, Decide;
    var request := header + body;
    var s := arrived + pieces[0];
    assert request == s + Whole(pieces[1..]);
    assert s == request[..|s|];
    DecideOnPrefix(header, n, body, |s|);
    NoLengthMeansNoBody(header, n);
    assert request[..|request|] == request;
    if |s| == |request| {
      assert s == request;
    } else {
      assert pieces[1..] != [];
      assert NonEmpty(pieces[1..]);
      GatherWhole(header, n, body, s, pieces[1..]);
    }
  }

  lemma NoLengthMeansNoBody(header: string, n: nat)
    requires HeaderOf(header, n)
    ensures Index(header, LENGTH_NAME, 0).None? ==> n == 0
  {
  }

  /** A header ends at its first blank line, and behind its first "Content-Length: ", if it has one, the number `n`
      is printed; without one `n` is zero. */
  ghost predicate Announcing(header: string, n: nat) {
    && |header| >= 4 && FirstAt(header, "\r\n\r\n", 0, |header| - 4)
    && n < 4294967296
    && if Absent(header, "Content-Length: ", 0) then n == 0
       else exists i: nat, rest ::
              FirstAt(header, "Content-Length: ", 0, i) && i + 16 <= |header|
              && header[i + 16..] == Printed(n) + rest && NoDigitFirst(rest)
  }

  lemma IndexIs(s: string, p: string, at: Option<nat>)
    requires at.Some? ==> FirstAt(s, p, 0, at.value)
    requires at.None? ==> Absent(s, p, 0)
    ensures Index(s, p, 0) == at
  {
    FoundIsIndex(s, p, at);
  }

  lemma AnnouncedIs(s: string, name: string, i: nat, n: nat, rest: string)
    requires FirstAt(s, name, 0, i) && i + |name| <= |s| && n < 4294967296
    requires s[i + |name|..] == Printed(n) + rest && NoDigitFirst(rest)
    ensures Announced(s, name) == Some(n)
  {
    hide *;
    IndexIs(s, name, Some(i));
    AnnouncedAt(s, name);
    PrintedReads(n, rest);
  }

  lemma PrintedReads(n: nat, rest: string)
    requires n < 4294967296 && NoDigitFirst(rest)
    ensures Number(Printed(n) + rest) == Some(n)
  {
    hide Number, Printed;
    NumberReads("", "", "", n, rest);
    Empties(Printed(n), rest);
  }

  lemma Empties(a: string, b: string)
    ensures "" + ("" + ("" + a + b)) == a + b
  {
  }

  lemma AnnouncingIsHeader(header: string, n: nat)
    requires Announcing(header, n)
    ensures HeaderOf(header, n)
  {
    IndexIs(header, BLANK_LINE, Some(|header| - 4));
    if Absent(header, LENGTH_NAME, 0) {
      IndexIs(header, LENGTH_NAME, None);
    } else {
      var i: nat, rest :|
        FirstAt(header, LENGTH_NAME, 0, i) && i + 16 <= |header|
        && header[i + 16..] == Printed(n) + rest && NoDigitFirst(rest);
      AnnouncedIs(header, LENGTH_NAME, i, n, rest);
    }
    hide Announced, Index;
  }

  /** However a request is cut into pieces, exactly the whole of it is acted on, if and only if the length printed in
      its header (zero when it prints none) is the length of the body. */
  lemma SegmentationDoesNotMatterIff(header: string, n: nat, body: string)
    requires Announcing(header, n)
    ensures (forall pieces :: NonEmpty(pieces) && Whole(pieces) == header + body ==>
               Gather("", pieces) == Some(header + body))
            <==> n == |body|
  {
    hide *;
    AnnouncingIsHeader(header, n);
    ActedOnWholeIff(header, n, body);
  }

  /** The same for whatever length is read from the header. */
  lemma ActedOnWholeIff(header: string, n: nat, body: string)
    requires HeaderOf(header, n)
    ensures (forall pieces :: NonEmpty(pieces) && Whole(pieces) == header + body ==>
               Gather("", pieces) == Some(header + body))
            <==> n == |body|
  {
    hide *;
    if n == |body| {
      forall pieces | NonEmpty(pieces) && Whole(pieces) == header + body
        ensures Gather("", pieces) == Some(header + body)
      {
        WholeIsTaken(header, n, body, pieces);
      }
    } else if n < |body| {
      var pieces := CutTooEarly(header, n, body);
    } else {
      var pieces := NeverComplete(header, n, body);
    }
  }

  lemma WholeIsTaken(header: string, n: nat, body: string, pieces: seq<string>)
    requires HeaderOf(header, n) && n == |body| && NonEmpty(pieces) && Whole(pieces) == header + body
    ensures Gather("", pieces) == Some(header + body)
  {
    hide Index, Decide, Declared, Gather;
    assert pieces != [];
    assert "" + Whole(pieces) == header + body;
    GatherWhole(header, n, body, "", pieces);
  }

  /** With a longer body than announced, its first part is acted on when it comes in a piece of its own. */
  lemma CutTooEarly(header: string, n: nat, body: string) returns (pieces: seq<string>)
    requires HeaderOf(header, n) && n < |body|
    ensures NonEmpty(pieces) && Whole(pieces) == header + body && Gather("", pieces) != Some(header + body)
  {
    hide Index, Decide, Whole, Declared;
    var request, k := header + body, |header| + n;
    pieces := [request[..k], request[k..]];
    WholeOfTwo(request[..k], request[k..]);
    assert request == request[..k] + request[k..];
    DecideOnPrefix(header, n, body, k);
    NoLengthMeansNoBody(header, n);
    assert "" + request[..k] == request[..k];
    assert |request[..k]| < |request|;
  }

  /** With a shorter body than announced, more is waited for. */
  lemma NeverComplete(header: string, n: nat, body: string) returns (pieces: seq<string>)
    requires HeaderOf(header, n) && n > |body|
    ensures NonEmpty(pieces) && Whole(pieces) == header + body && Gather("", pieces) == None
  {
    hide Index, Decide, Whole, Declared;
    var request := header + body;
    pieces := [request];
    WholeOfOne(request);
    DecideOnPrefix(header, n, body, |request|);
    NoLengthMeansNoBody(header, n);
    assert request[..|request|] == request && "" + request == request;
    assert Gather(request, pieces[1..]) == None;
  }

  lemma WholeOfOne(a: string)
    ensures Whole([a]) == a
  {
    assert [a][1..] == [];
  }

  lemma WholeOfTwo(a: string, b: string)
    ensures Whole([a, b]) == a + b
  {
    assert [a, b][1..] == [b];
    WholeOfOne(b);
  }
}
