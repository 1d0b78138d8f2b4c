/** The placeholder substitution of the page templates, `replace_string_pattern_with`. */
module TextReplace {
  import opened Bytes

  predicate OccursAt(s: string, p: string, i: nat) {
    i + |p| <= |s| && s[i..i + |p|] == p
  }

  /** `i` is the leftmost occurrence of `p` in `s` at or after `from`. */
  ghost predicate FirstAt(s: string, p: string, from: nat, i: nat) {
    from <= i && OccursAt(s, p, i) && forall j :: from <= j < i ==> !OccursAt(s, p, j)
  }

  ghost predicate Absent(s: string, p: string, from: nat) {
    forall j :: from <= j <= |s| ==> !OccursAt(s, p, j)
  }

  function Join(pieces: seq<string>, glue: string): string
    requires pieces != []
  {
    if |pieces| == 1 then pieces[0] else pieces[0] + glue + Join(pieces[1..], glue)
  }

  /** The pieces of `s` between the leftmost, non-overlapping occurrences of `p`. */
  ghost predicate LeftmostSplit(pieces: seq<string>, s: string, p: string) {
    && pieces != []
    && if |pieces| == 1 then pieces[0] == s && Absent(s, p, 0)
       else var i := |pieces[0]|;
            FirstAt(s, p, 0, i) && pieces[0] == s[..i] && LeftmostSplit(pieces[1..], s[i + |p|..], p)
  }

  lemma {:induction false} SplitIsLossless(pieces: seq<string>, s: string, p: string)
    requires LeftmostSplit(pieces, s, p)
    ensures Join(pieces, p) == s
    decreases |pieces|
  {
    if |pieces| > 1 {
      var i := |pieces[0]|;
      SplitIsLossless(pieces[1..], s[i + |p|..], p);
      assert s == s[..i] + p + s[i + |p|..];
    }
  }

  lemma {:induction false} SplitIsUnique(a: seq<string>, b: seq<string>, s: string, p: string)
    requires LeftmostSplit(a, s, p) && LeftmostSplit(b, s, p)
    ensures a == b
    decreases |a|
  {
    if |a| > 1 && |b| > 1 {
      var i, j := |a[0]|, |b[0]|;
      assert OccursAt(s, p, i) && OccursAt(s, p, j);
      assert i == j;
      SplitIsUnique(a[1..], b[1..], s[i + |p|..], p);
      assert a == [a[0]] + a[1..] && b == [b[0]] + b[1..];
    }
  }

  /** `std::string::find`: the leftmost occurrence from a position on. */
  method Find(s: string, p: string, from: nat) returns (at: Option<nat>)
    ensures at.Some? ==> FirstAt(s, p, from, at.value)
    ensures at.None? ==> Absent(s, p, from)
  {
    var i := from;
    while i + |p| <= |s|
      invariant from <= i
      invariant forall j :: from <= j < i ==> !OccursAt(s, p, j)
    {
      if s[i..i + |p|] == p {
        return Some(i);
      }
      i := i + 1;
    }
    at := None;
  }

  lemma OccursShift(s: string, p: string, start: nat, i: nat)
    requires start <= |s|
    ensures OccursAt(s, p, start + i) <==> OccursAt(s[start..], p, i)
  {
    if start + i + |p| <= |s| {
      assert s[start + i..start + i + |p|] == s[start..][i..i + |p|];
    }
  }

  lemma FirstShift(s: string, p: string, start: nat, at: Option<nat>)
    requires start <= |s|
    requires at.Some? ==> FirstAt(s, p, start, at.value)
    requires at.None? ==> Absent(s, p, start)
    ensures at.Some? ==> FirstAt(s[start..], p, 0, at.value - start)
    ensures at.None? ==> Absent(s[start..], p, 0)
  {
    forall i: nat
      ensures OccursAt(s, p, start + i) <==> OccursAt(s[start..], p, i)
    {
      OccursShift(s, p, start, i);
    }
    if at.Some? {
      assert OccursAt(s, p, start + (at.value - start));
      forall j | 0 <= j < at.value - start
        ensures !OccursAt(s[start..], p, j)
      {
        assert !OccursAt(s, p, start + j);
      }
    } else {
      forall j | 0 <= j <= |s[start..]|
        ensures !OccursAt(s[start..], p, j)
      {
        assert !OccursAt(s, p, start + j);
      }
    }
  }

  /** Everything cut off so far, followed by any split of what is left, is a split of the whole. */
  ghost predicate Extends(done: seq<string>, s: string, rest: string, p: string) {
    forall tail :: LeftmostSplit(tail, rest, p) ==> LeftmostSplit(done + tail, s, p)
  }

  lemma ExtendsOne(done: seq<string>, s: string, rest: string, p: string, i: nat)
    requires Extends(done, s, rest, p) && FirstAt(rest, p, 0, i)
    ensures Extends(done + [rest[..i]], s, rest[i + |p|..], p)
  {
    forall tail | LeftmostSplit(tail, rest[i + |p|..], p)
      ensures LeftmostSplit(done + [rest[..i]] + tail, s, p)
    {
      var longer := [rest[..i]] + tail;
      assert longer[1..] == tail;
      assert LeftmostSplit(longer, rest, p);
      assert done + [rest[..i]] + tail == done + longer;
    }
  }

  lemma ExtendsNothing(s: string, p: string)
    ensures Extends([], s, s, p)
  {
    forall tail: seq<string> ensures [] + tail == tail {}
  }

  lemma SplitEnds(done: seq<string>, s: string, rest: string, p: string)
    requires Extends(done, s, rest, p) && Absent(rest, p, 0)
    ensures LeftmostSplit(done + [rest], s, p)
  {
    assert LeftmostSplit([rest], rest, p);
  }

  function Glued(pieces: seq<string>, glue: string): string {
    if pieces == [] then "" else pieces[0] + glue + Glued(pieces[1..], glue)
  }

  lemma GluedNothing(glue: string)
    ensures Glued([], glue) == ""
  {
  }

  lemma {:induction false} GluedAppend(pieces: seq<string>, piece: string, glue: string)
    ensures Glued(pieces + [piece], glue) == Glued(pieces, glue) + piece + glue
    decreases |pieces|
  {
    if pieces == [] {
      assert (pieces + [piece])[1..] == [];
    } else {
      assert (pieces + [piece])[1..] == pieces[1..] + [piece];
      GluedAppend(pieces[1..], piece, glue);
    }
  }

  lemma {:induction false} GluedIsJoin(pieces: seq<string>, last: string, glue: string)
    ensures Join(pieces + [last], glue) == Glued(pieces, glue) + last
    decreases |pieces|
  {
    if pieces == [] {
      assert pieces + [last] == [last];
    } else {
      assert (pieces + [last])[1..] == pieces[1..] + [last];
      GluedIsJoin(pieces[1..], last, glue);
    }
  }

  /** The in-place loop. The result glues the pieces of the ORIGINAL text with the replacement, so inserted
      text is never scanned again, whatever it contains. */
  method Replace(source: string, pattern: string, replacement: string) returns (result: string)
    ensures pattern == "" ==> result == source
    ensures pattern != "" ==>
              exists pieces :: LeftmostSplit(pieces, source, pattern) && result == Join(pieces, replacement)
  {
    result := source;
    if pattern == "" {
      return;
    }
    var start := 0;
    ghost var done: seq<string> := [];
    ghost var rest := source;
    ExtendsNothing(source, pattern);
    hide Extends, LeftmostSplit, Join, Glued;
    assert Glued(done, replacement) == "" by {
      GluedNothing(replacement);
    }
    while true
      invariant start <= |result|
      invariant result[start..] == rest
      invariant result[..start] == Glued(done, replacement)
      invariant Extends(done, source, rest, pattern)
      decreases |result| - start
    {
      var at := Find(result, pattern, start);
      FirstShift(result, pattern, start, at);
      if at.None? {
        break;
      }
      ghost var i := at.value - start;
      ExtendsOne(done, source, rest, pattern, i);
      GluedAppend(done, rest[..i], replacement);
      ghost var before := result;
      result := result[..at.value] + replacement + result[at.value + |pattern|..];
      assert before[..at.value] == before[..start] + rest[..i];
      start := at.value + |replacement|;
      assert result[..start] == before[..at.value] + replacement;
      assert result[start..] == rest[i + |pattern|..];
      done, rest := done + [rest[..i]], rest[i + |pattern|..];
    }
    SplitEnds(done, source, rest, pattern);
    GluedIsJoin(done, rest, replacement);
    assert result == result[..start] + result[start..];
  }
}
