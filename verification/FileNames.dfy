/** The name under which a received file is stored: cut at the first zero byte, replaced by the message number
    when it holds a reserved character, given a counting suffix when the directory already has it. */
module FileNames {
  import opened Bytes

  // '/', '\', ':', '*', '?', '"', '<', '>', '|'
  const RESERVED: set<byte> := {47, 92, 58, 42, 63, 34, 60, 62, 124}
  const DOT: byte := 46
  const OPEN: byte := 40
  const CLOSE: byte := 41

  /** "." and "..", which every directory holds. */
  const ALWAYS_THERE: set<Data> := {[DOT], [DOT, DOT]}

  /** The bytes before the first zero. */
  function CString(s: Data): (r: Data)
    ensures r <= s && 0 !in r && (|r| < |s| ==> s[|r|] == 0)
  {
    if s == [] || s[0] == 0 then [] else [s[0]] + CString(s[1..])
  }

  lemma {:induction false} CStringIs(s: Data, n: nat)
    requires n <= |s| && 0 !in s[..n] && (n < |s| ==> s[n] == 0)
    ensures CString(s) == s[..n]
    decreases |s|
  {
    if n > 0 {
      assert s[..n][0] == s[0];
      assert s[1..][..n - 1] == s[..n][1..];
      CStringIs(s[1..], n - 1);
    }
  }

  lemma CStringOf(name: Data, rest: Data)
    requires 0 !in name
    ensures CString(name + [0] + rest) == name
  {
    var s := name + [0] + rest;
    assert s[..|name|] == name;
    CStringIs(s, |name|);
  }

  // ---- Decimal numbers

  function Digits(n: nat): (s: Data)
    ensures s != []
  {
    if n < 10 then [48 + n] else Digits(n / 10) + [48 + n % 10]
  }

  lemma {:induction false} DigitsInjective(m: nat, n: nat)
    requires Digits(m) == Digits(n)
    ensures m == n
    decreases m
  {
    var s, t := Digits(m), Digits(n);
    assert s[|s| - 1] == 48 + m % 10 && t[|t| - 1] == 48 + n % 10;
    if m >= 10 && n >= 10 {
      assert s[..|s| - 1] == Digits(m / 10) && t[..|t| - 1] == Digits(n / 10);
      DigitsInjective(m / 10, n / 10);
    }
  }

  /** The number a row of decimal digits stands for. */
  function Decimal(s: Data): int {
    if s == [] then 0 else Decimal(s[..|s| - 1]) * 10 + (s[|s| - 1] as int - 48)
  }

  /** A number is printed in decimal, without leading zeros. */
  lemma {:induction false} DigitsAreDecimal(n: nat)
    ensures var s := Digits(n);
            && Decimal(s) == n && (forall i :: 0 <= i < |s| ==> 48 <= s[i] <= 57)
            && (n > 0 ==> s[0] != 48) && (n == 0 ==> s == [48])
  {
    var s := Digits(n);
    if n >= 10 {
      assert s[..|s| - 1] == Digits(n / 10);
      DigitsAreDecimal(n / 10);
    } else {
      assert s[..0] == [];
    }
  }

  function Suffixed(base: Data, n: nat, ext: Data): Data {
    base + [OPEN] + Digits(n) + [CLOSE] + ext
  }

  lemma SuffixedInjective(base: Data, ext: Data, m: nat, n: nat)
    requires Suffixed(base, m, ext) == Suffixed(base, n, ext)
    ensures m == n
  {
    var s, t := Suffixed(base, m, ext), Suffixed(base, n, ext);
    var a, b := Digits(m), Digits(n);
    assert |s| == |base| + |a| + 2 + |ext| && |t| == |base| + |b| + 2 + |ext|;
    assert s[|base| + 1..|base| + 1 + |a|] == a;
    assert t[|base| + 1..|base| + 1 + |b|] == b;
    DigitsInjective(m, n);
  }

  // ---- The suffix loop

  /** The least suffix from `n` on that is not taken. Every taken name is met at most once, because different
      numbers print differently, so the search ends within `|dir| + 1` tries. */
  function FirstFree(base: Data, ext: Data, n: nat, dir: set<Data>): (m: nat)
    ensures m >= n
    decreases |dir|
  {
    var name := Suffixed(base, n, ext);
    if name in dir then FirstFree(base, ext, n + 1, dir - {name}) else n
  }

  lemma {:induction false} FirstFreeIsFree(base: Data, ext: Data, n: nat, dir: set<Data>)
    ensures var m := FirstFree(base, ext, n, dir);
            && n <= m <= n + |dir|
            && Suffixed(base, m, ext) !in dir
            && forall k :: n <= k < m ==> Suffixed(base, k, ext) in dir
    decreases |dir|
  {
    var name := Suffixed(base, n, ext);
    if name in dir {
      var rest := dir - {name};
      assert |rest| == |dir| - 1;
      FirstFreeIsFree(base, ext, n + 1, rest);
      var m := FirstFree(base, ext, n + 1, rest);
      if Suffixed(base, m, ext) == name {
        SuffixedInjective(base, ext, m, n);
      }
    }
  }

  /** Where the extension starts: at the last dot, or at the end. */
  function ExtensionAt(name: Data): (i: nat)
    ensures i <= |name|
    ensures DOT !in name ==> i == |name|
    ensures DOT in name ==> i < |name| && name[i] == DOT && DOT !in name[i + 1..]
  {
    LastDot(name, |name|)
  }

  function LastDot(name: Data, n: nat): (i: nat)
    requires n <= |name| && DOT !in name[n..]
    ensures i <= |name|
    ensures DOT !in name ==> i == |name|
    ensures DOT in name ==> i < |name| && name[i] == DOT && DOT !in name[i + 1..]
  {
    if n == 0 then
      assert name[0..] == name;
      |name|
    else if name[n - 1] == DOT then n - 1
    else
      assert name[n - 1..] == [name[n - 1]] + name[n..];
      LastDot(name, n - 1)
  }

  /** `fs::exists`, asked inside the directory. */
  predicate Exists(name: Data, dir: set<Data>) {
    name in dir || name in ALWAYS_THERE
  }

  lemma SuffixedIsNoDot(base: Data, n: nat, ext: Data)
    ensures Suffixed(base, n, ext) !in ALWAYS_THERE
  {
    assert Suffixed(base, n, ext)[|base|] == OPEN;
  }

  function StoredName(name: Data, dir: set<Data>): Data {
    if !Exists(name, dir) then name
    else
      var i := ExtensionAt(name);
      Suffixed(name[..i], FirstFree(name[..i], name[i..], 1, dir), name[i..])
  }

  lemma StoredNameIsFree(name: Data, dir: set<Data>)
    ensures !Exists(StoredName(name, dir), dir)
  {
    if Exists(name, dir) {
      var i := ExtensionAt(name);
      SuffixedIsNoDot(name[..i], FirstFree(name[..i], name[i..], 1, dir), name[i..]);
      FirstFreeIsFree(name[..i], name[i..], 1, dir);
    }
  }

  predicate Valid(name: Data) {
    name != [] && forall i :: 0 <= i < |name| ==> name[i] !in RESERVED
  }

  /** The whole choice made when a header packet arrives. */
  function ChosenName(raw: Data, messageId: nat, dir: set<Data>): Data {
    var name := CString(raw);
    StoredName(if Valid(name) then name else Digits(messageId), dir)
  }

  lemma ChosenNameIsFree(raw: Data, messageId: nat, dir: set<Data>)
    ensures !Exists(ChosenName(raw, messageId, dir), dir)
  {
    var name := CString(raw);
    StoredNameIsFree(if Valid(name) then name else Digits(messageId), dir);
  }

  /** `stored` is `base`, the number `n` in brackets, and `ext`, the first such name that does not exist; `ext` starts
      at the last dot of the name, and is empty without a dot. */
  ghost predicate NumberedWith(name: Data, dir: set<Data>, stored: Data, base: Data, ext: Data, n: nat) {
    && name == base + ext && n >= 1
    && (if 46 in name then ext != [] && ext[0] == 46 && 46 !in ext[1..] else ext == [])
    && stored == base + [40] + Digits(n) + [41] + ext && stored !in dir
    && forall k: nat :: 1 <= k < n ==> base + [40] + Digits(k) + [41] + ext in dir
  }

  lemma NumberIsPutIn(name: Data, dir: set<Data>) returns (base: Data, ext: Data, n: nat)
    requires Exists(name, dir)
    ensures NumberedWith(name, dir, StoredName(name, dir), base, ext, n)
  {
    var i := ExtensionAt(name);
    base, ext, n := name[..i], name[i..], FirstFree(name[..i], name[i..], 1, dir);
    FirstFreeIsFree(base, ext, 1, dir);
    StoredIs(name, dir);
    hide FirstFree, Digits, ExtensionAt, StoredName;
    assert name == base + ext;
    assert 46 in name ==> ext != [] && ext[0] == 46 && ext[1..] == name[i + 1..];
    assert 46 !in name ==> ext == [];
    forall k: nat | 1 <= k < n
      ensures base + [40] + Digits(k) + [41] + ext in dir
    {
      assert Suffixed(base, k, ext) in dir;
    }
  }

  lemma StoredIs(name: Data, dir: set<Data>)
    ensures StoredName(name, dir) ==
            if Exists(name, dir)
            then var i := ExtensionAt(name);
                 Suffixed(name[..i], FirstFree(name[..i], name[i..], 1, dir), name[i..])
            else name
  {
    hide FirstFree, ExtensionAt, Suffixed;
  }

  /** A name taken from a packet is kept as it is if it is not empty, holds none of / \ : * ? " < > | and does not
      exist; a name that may not be used is replaced by the message number, and one that exists is numbered. */
  lemma NameIsKept(raw: Data, messageId: nat, dir: set<Data>)
    ensures var name := CString(raw);
            var usable := name != [] && forall i :: 0 <= i < |name| ==> name[i] !in {47, 92, 58, 42, 63, 34, 60, 62, 124};
            var wanted := if usable then name else Digits(messageId);
            if wanted in dir || wanted == [46] || wanted == [46, 46]
            then exists base, ext, n :: NumberedWith(wanted, dir, ChosenName(raw, messageId, dir), base, ext, n)
            else ChosenName(raw, messageId, dir) == wanted
  {
    var wanted := Wanted(raw, messageId, dir);
    hide StoredName, NumberedWith, Digits, Valid, CString, ChosenName;
    if Exists(wanted, dir) {
      var base, ext, n := NumberIsPutIn(wanted, dir);
    } else {
      StoredIs(wanted, dir);
    }
  }

  lemma Wanted(raw: Data, messageId: nat, dir: set<Data>) returns (wanted: Data)
    ensures var name := CString(raw);
            var usable := name != [] && forall i :: 0 <= i < |name| ==> name[i] !in {47, 92, 58, 42, 63, 34, 60, 62, 124};
            wanted == if usable then name else Digits(messageId)
    ensures ChosenName(raw, messageId, dir) == StoredName(wanted, dir)
    ensures Exists(wanted, dir) <==> wanted in dir || wanted == [46] || wanted == [46, 46]
  {
    wanted := if Valid(CString(raw)) then CString(raw) else Digits(messageId);
    hide StoredName, Digits, CString;
  }

  // ---- The loops of the receiver

  method FindDot(name: Data) returns (i: nat)
    ensures i == ExtensionAt(name)
  {
    i := |name|;
    assert name[|name|..] == [];
    while i > 0 && name[i - 1] != DOT
      invariant 0 <= i <= |name|
      invariant DOT !in name[i..]
      invariant LastDot(name, |name|) == LastDot(name, i)
    {
      assert name[i - 1..] == [name[i - 1]] + name[i..];
      i := i - 1;
    }
    if i == 0 {
      i := |name|;
    } else {
      i := i - 1;
    }
  }

  method ReadName(raw: Data) returns (name: Data)
    ensures name == CString(raw)
  {
    name := [];
    var i := 0;
    while i < |raw| && raw[i] != 0
      invariant i <= |raw| && name == raw[..i] && 0 !in name
    {
      assert raw[..i + 1] == raw[..i] + [raw[i]];
      name := name + [raw[i]];
      i := i + 1;
    }
    CStringIs(raw, i);
  }

  method CheckName(name: Data) returns (valid: bool)
    ensures valid <==> Valid(name)
  {
    valid := name != [];
    for j := 0 to |name|
      invariant valid <==> name != []
      invariant forall k :: 0 <= k < j ==> name[k] !in RESERVED
    {
      if name[j] in RESERVED {
        valid := false;
        break;
      }
    }
  }

  /** The suffix loop ends after at most `|dir| + 1` looks into the directory, at the least free number. */
  method CountUp(base: Data, ext: Data, dir: set<Data>) returns (suffix: nat)
    ensures suffix == FirstFree(base, ext, 1, dir)
    ensures !Exists(Suffixed(base, suffix, ext), dir)
    ensures forall k :: 1 <= k < suffix ==> Exists(Suffixed(base, k, ext), dir)
    ensures 1 <= suffix <= |dir| + 1
  {
    FirstFreeIsFree(base, ext, 1, dir);
    SuffixedIsNoDot(base, FirstFree(base, ext, 1, dir), ext);
    hide FirstFree, Suffixed;
    suffix := 1;
    while Exists(Suffixed(base, suffix, ext), dir)
      invariant 1 <= suffix <= FirstFree(base, ext, 1, dir)
      invariant forall k :: 1 <= k < suffix ==> Exists(Suffixed(base, k, ext), dir)
      decreases FirstFree(base, ext, 1, dir) - suffix
    {
      SuffixedIsNoDot(base, suffix, ext);
      suffix := suffix + 1;
    }
  }

  method ChooseName(raw: Data, messageId: nat, dir: set<Data>) returns (name: Data)
    ensures name == ChosenName(raw, messageId, dir)
    ensures !Exists(name, dir)
  {
    ChosenNameIsFree(raw, messageId, dir);
    hide CString, Valid, Digits, FirstFree, Suffixed;
    name := ReadName(raw);
    var valid := CheckName(name);
    if !valid {
      name := Digits(messageId);
    }
    if Exists(name, dir) {
      var dot := FindDot(name);
      var suffix := CountUp(name[..dot], name[dot..], dir);
      name := Suffixed(name[..dot], suffix, name[dot..]);
    }
  }
}
