/** `json_escape`, against a reader of string literals written from section 7 of RFC 8259. */
module JsonText {
  import opened Bytes

  function EscapeChar(c: char): string {
    if c == '"' then "\\\""
    else if c == '\\' then "\\\\"
    else if c == '\n' then "\\n"
    else if c == '\r' then "\\r"
    else if c == '\t' then "\\t"
    else [c]
  }

  function Escape(s: string): string {
    if s == "" then "" else EscapeChar(s[0]) + Escape(s[1..])
  }

  /** Five characters are written as two, every other one is copied. */
  lemma EscapedForms(c: char)
    ensures Escape([c]) ==
            if c == '"' then ['\\', '"'] else if c == '\\' then ['\\', '\\'] else if c == '\n' then ['\\', 'n']
            else if c == '\r' then ['\\', 'r'] else if c == '\t' then ['\\', 't'] else [c]
  {
    assert [c][1..] == "";
  }

  lemma {:induction false} EscapeConcat(s: string, t: string)
    ensures Escape(s + t) == Escape(s) + Escape(t)
  {
    if s == "" {
      assert s + t == t;
    } else {
      assert (s + t)[1..] == s[1..] + t;
      EscapeConcat(s[1..], t);
    }
  }

  /** The appending loop. */
  method JsonEscape(s: string) returns (out: string)
    ensures out == Escape(s)
  {
    out := "";
    for i := 0 to |s|
      invariant out == Escape(s[..i])
    {
      assert s[..i + 1] == s[..i] + [s[i]];
      EscapeConcat(s[..i], [s[i]]);
      assert Escape([s[i]]) == EscapeChar(s[i]);
      match s[i] {
        case '"' => out := out + "\\\"";
        case '\\' => out := out + "\\\\";
        case '\n' => out := out + "\\n";
        case '\r' => out := out + "\\r";
        case '\t' => out := out + "\\t";
        case c => out := out + [c];
      }
    }
    assert s[..|s|] == s;
  }

  // ---- The reader

  function HexDigit(c: char): Option<nat> {
    if '0' <= c <= '9' then Some(c as nat - '0' as nat)
    else if 'a' <= c <= 'f' then Some(c as nat - 'a' as nat + 10)
    else if 'A' <= c <= 'F' then Some(c as nat - 'A' as nat + 10)
    else None
  }

  /** Four hexadecimal digits; the halves of a surrogate pair are not characters by themselves. */
  function CodePoint(s: string): Option<char>
    requires |s| == 4
  {
    var a :- HexDigit(s[0]);
    var b :- HexDigit(s[1]);
    var c :- HexDigit(s[2]);
    var d :- HexDigit(s[3]);
    var n := ((a * 16 + b) * 16 + c) * 16 + d;
    if n < 0xD800 || 0xE000 <= n < 0x1_0000 then Some(n as char) else None
  }

  function Unescape(c: char): Option<char> {
    match c
    case '"' => Some('"')
    case '\\' => Some('\\')
    case '/' => Some('/')
    case 'b' => Some(8 as char)
    case 'f' => Some(12 as char)
    case 'n' => Some('\n')
    case 'r' => Some('\r')
    case 't' => Some('\t')
    case _ => None
  }

  /** Reads a literal whose opening quote is already consumed: its value and what follows the closing quote. */
  function ReadString(s: string): Option<(string, string)> {
    if s == "" then None
    else if s[0] == '"' then Some(("", s[1..]))
    else if s[0] == '\\' then
      if |s| >= 6 && s[1] == 'u' then
        var c :- CodePoint(s[2..6]);
        var (value, rest) :- ReadString(s[6..]);
        Some(([c] + value, rest))
      else if |s| >= 2 then
        var c :- Unescape(s[1]);
        var (value, rest) :- ReadString(s[2..]);
        Some(([c] + value, rest))
      else None
    else if s[0] < ' ' then None
    else
      var (value, rest) :- ReadString(s[1..]);
      Some(([s[0]] + value, rest))
  }

  /** A control character that the escaper copies and the grammar forbids. */
  predicate Raw(c: char) {
    c < ' ' && c != '\n' && c != '\r' && c != '\t'
  }

  predicate Clean(s: string) {
    forall i :: 0 <= i < |s| ==> !Raw(s[i])
  }

  lemma ReadOne(c: char, more: string)
    ensures Raw(c) ==> ReadString(EscapeChar(c) + more) == None
    ensures !Raw(c) ==>
              ReadString(EscapeChar(c) + more) ==
              match ReadString(more)
              case None => None
              case Some((value, rest)) => Some(([c] + value, rest))
  {
    if |EscapeChar(c)| == 1 {
      ReadPlain(c, more);
    } else {
      var d := EscapeChar(c)[1];
      assert EscapeChar(c) == ['\\', d] && d != 'u' && Unescape(d) == Some(c);
      ReadEscaped(d, more);
    }
    hide ReadString;
  }

  lemma ReadPlain(c: char, more: string)
    requires c != '"' && c != '\\'
    ensures ReadString([c] + more) ==
            if c < ' ' then None
            else match ReadString(more)
              case None => None
              case Some((value, rest)) => Some(([c] + value, rest))
  {
    var s := [c] + more;
    assert s[0] == c && s[1..] == more;
    hide CodePoint, Unescape;
  }

  lemma ReadEscaped(d: char, more: string)
    requires d != 'u' && Unescape(d).Some?
    ensures ReadString(['\\', d] + more) ==
            match ReadString(more)
            case None => None
            case Some((value, rest)) => Some(([Unescape(d).value] + value, rest))
  {
    var s := ['\\', d] + more;
    assert s[0] == '\\' && s[1] == d && s[2..] == more;
    hide CodePoint, Unescape;
  }

  /** Reading back an escaped text gives the text, exactly when it holds no raw control character. */
  lemma {:induction false} EscapeRoundTrip(text: string, rest: string)
    ensures ReadString(Escape(text) + "\"" + rest) == (if Clean(text) then Some((text, rest)) else None)
  {
    if text == "" {
      assert Escape(text) + "\"" + rest == "\"" + rest;
    } else {
      EscapeRoundTrip(text[1..], rest);
      var more := Escape(text[1..]) + "\"" + rest;
      assert Escape(text) + "\"" + rest == EscapeChar(text[0]) + more;
      ReadOne(text[0], more);
      assert Clean(text) <==> !Raw(text[0]) && Clean(text[1..]) by {
        if !Raw(text[0]) && Clean(text[1..]) {
          forall i | 0 <= i < |text|
            ensures !Raw(text[i])
          {
            assert i > 0 ==> text[i] == text[1..][i - 1];
          }
        }
      }
      assert text == [text[0]] + text[1..];
    }
  }
}
