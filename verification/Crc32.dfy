/** The packet checksum: the table-driven loop of the client against a bit-serial register. */
module Crc32 {
  import opened Bytes

  // `Checksum` is the loop; the reference is the register of section 8 of RFC 1952, which takes one message bit at
  // a time. The word operations carry names so that the inductive proofs can `hide` their bit patterns and use the
  // algebraic laws only.

  const POLYNOMIAL: bv32 := 0xEDB8_8320
  const ONES: bv32 := 0xFFFF_FFFF

  function Xor(x: bv32, y: bv32): bv32 { x ^ y }
  function Half(w: bv32): bv32 { w >> 1 }
  predicate Even(w: bv32) { w & 1 == 0 }
  function Wide(b: bv8): bv32 { b as bv32 }
  function LowByte(w: bv32): bv32 { w & 0xFF }
  function HighBytes(w: bv32): bv32 { w & 0xFFFF_FF00 }
  function Down8(w: bv32): bv32 { w >> 8 }
  function Up8(w: bv32): bv32 { w << 8 }

  // ---- The bit-serial reference

  /** One shift of the register. */
  function Shift(c: bv32): bv32 {
    if Even(c) then Half(c) else Xor(Half(c), POLYNOMIAL)
  }

  /** The register takes one message bit. */
  function FeedBit(c: bv32, bit: bool): bv32 {
    Shift(if bit then Xor(c, 1) else c)
  }

  function FeedBits(c: bv32, bits: seq<bool>): bv32
    decreases |bits|
  {
    if bits == [] then c else FeedBits(FeedBit(c, bits[0]), bits[1..])
  }

  /** The `n` low bits of a word, lowest first. */
  function LowBits(word: bv32, n: nat): seq<bool>
    decreases n
  {
    if n == 0 then [] else [!Even(word)] + LowBits(Half(word), n - 1)
  }

  /** The bits of a message in the order the register takes them. */
  function MessageBits(s: seq<bv8>): seq<bool> {
    if s == [] then [] else LowBits(Wide(s[0]), 8) + MessageBits(s[1..])
  }

  function Reference(s: seq<bv8>): bv32 {
    Xor(FeedBits(ONES, MessageBits(s)), ONES)
  }

  // ---- Word laws

  lemma XorCommutes(x: bv32, y: bv32)
    ensures Xor(x, y) == Xor(y, x)
  {
  }

  lemma XorZero(x: bv32)
    ensures Xor(x, 0) == x
  {
  }

  lemma XorAssociates(x: bv32, y: bv32, z: bv32)
    ensures Xor(Xor(x, y), z) == Xor(x, Xor(y, z))
  {
  }

  lemma XorSelf(x: bv32)
    ensures Xor(x, x) == 0
  {
  }

  lemma XorCancels(x: bv32, y: bv32, z: bv32)
    requires Xor(x, z) == Xor(y, z)
    ensures x == y
  {
  }

  lemma HalfLinear(x: bv32, y: bv32)
    ensures Half(Xor(x, y)) == Xor(Half(x), Half(y))
    ensures Even(Xor(x, y)) <==> (Even(x) <==> Even(y))
  {
  }

  lemma XorTwice(x: bv32, y: bv32, z: bv32)
    ensures Xor(Xor(x, z), Xor(y, z)) == Xor(x, y)
    ensures Xor(x, Xor(y, z)) == Xor(Xor(x, y), z)
    ensures Xor(Xor(x, z), y) == Xor(Xor(x, y), z)
  {
    hide Xor;
    XorAssociates(x, y, z);
    XorAssociates(x, z, y);
    XorCommutes(y, z);
    XorAssociates(x, z, Xor(y, z));
    XorAssociates(z, z, y);
    XorSelf(z);
    XorCommutes(0, y);
    XorZero(y);
  }

  lemma SplitWord(w: bv32)
    ensures w == Xor(LowByte(w), HighBytes(w))
    ensures LowByte(HighBytes(w)) == 0
    ensures Down8(HighBytes(w)) == Down8(w)
  {
  }

  // ---- The shift register is linear and injective

  lemma ShiftLinear(x: bv32, y: bv32)
    ensures Shift(Xor(x, y)) == Xor(Shift(x), Shift(y))
  {
    hide Xor, Half, Even;
    HalfLinear(x, y);
    XorTwice(Half(x), Half(y), POLYNOMIAL);
  }

  lemma ShiftInjective(x: bv32, y: bv32)
    requires Shift(x) == Shift(y)
    ensures x == y
  {
  }

  function Shifts(c: bv32, n: nat): bv32
    decreases n
  {
    if n == 0 then c else Shifts(Shift(c), n - 1)
  }

  lemma {:induction false} ShiftsLinear(x: bv32, y: bv32, n: nat)
    ensures Shifts(Xor(x, y), n) == Xor(Shifts(x, n), Shifts(y, n))
    decreases n
  {
    hide Xor, Shift;
    if n > 0 {
      ShiftLinear(x, y);
      ShiftsLinear(Shift(x), Shift(y), n - 1);
    }
  }

  lemma {:induction false} ShiftsInjective(x: bv32, y: bv32, n: nat)
    requires Shifts(x, n) == Shifts(y, n)
    ensures x == y
    decreases n
  {
    hide Shift;
    if n > 0 {
      ShiftsInjective(Shift(x), Shift(y), n - 1);
      ShiftInjective(x, y);
    }
  }

  lemma {:induction false} ShiftsAdd(c: bv32, m: nat, n: nat)
    ensures Shifts(Shifts(c, m), n) == Shifts(c, m + n)
    decreases m
  {
    hide Shift;
    if m > 0 {
      ShiftsAdd(Shift(c), m - 1, n);
    }
  }

  // ---- Feeding bits one by one equals mixing the word in first

  function Drop(word: bv32, n: nat): bv32
    decreases n
  {
    if n == 0 then word else Drop(Half(word), n - 1)
  }

  lemma ShiftOne()
    ensures Shift(1) == POLYNOMIAL
  {
  }

  lemma FeedOne(c: bv32, word: bv32)
    ensures Shift(Xor(c, word)) == Xor(FeedBit(c, !Even(word)), Half(word))
  {
    hide Xor, Half, Even;
    ShiftLinear(c, word);
    ShiftLinear(c, 1);
    ShiftOne();
    XorTwice(Shift(c), Half(word), POLYNOMIAL);
  }

  lemma {:induction false} FeedLowBits(c: bv32, word: bv32, n: nat)
    ensures Xor(FeedBits(c, LowBits(word, n)), Drop(word, n)) == Shifts(Xor(c, word), n)
    decreases n
  {
    hide Xor, Half, Even, Shift, FeedBit;
    if n > 0 {
      FeedOne(c, word);
      FeedLowBits(FeedBit(c, !Even(word)), Half(word), n - 1);
      assert LowBits(word, n)[1..] == LowBits(Half(word), n - 1);
    }
  }

  function Half4(w: bv32): bv32 { Half(Half(Half(Half(w)))) }

  lemma {:induction false} Drop4(w: bv32, n: nat)
    ensures Drop(w, n + 4) == Drop(Half4(w), n)
  {
    hide Half;
    assert Drop(Half(w), n + 3) == Drop(Half(Half(w)), n + 2);
    assert Drop(Half(Half(w)), n + 2) == Drop(Half(Half(Half(w))), n + 1);
  }

  lemma {:induction false} Drop8(w: bv32)
    ensures Drop(w, 8) == Half4(Half4(w))
  {
    hide Half4;
    Drop4(w, 4);
    Drop4(Half4(w), 0);
  }

  lemma Half8(w: bv32, b: bv8)
    ensures Half4(Half4(w)) == Down8(w)
    ensures Down8(Wide(b)) == 0
  {
  }

  lemma {:induction false} FeedBitsConcat(c: bv32, a: seq<bool>, b: seq<bool>)
    ensures FeedBits(c, a + b) == FeedBits(FeedBits(c, a), b)
    decreases |a|
  {
    hide FeedBit;
    if a == [] {
      assert a + b == b;
    } else {
      assert (a + b)[1..] == a[1..] + b;
      FeedBitsConcat(FeedBit(c, a[0]), a[1..], b);
    }
  }

  lemma FeedByte(c: bv32, b: bv8)
    ensures FeedBits(c, LowBits(Wide(b), 8)) == Shifts(Xor(c, Wide(b)), 8)
  {
    hide Xor, Wide, Half4, Down8, Even, Half, FeedBit, Shift;
    var w := Wide(b);
    FeedLowBits(c, w, 8);
    Drop8(w);
    Half8(w, b);
    XorZero(FeedBits(c, LowBits(w, 8)));
  }

  // ---- The table step

  function Update(c: bv32, b: bv8): bv32 {
    Xor(Down8(c), Shifts(LowByte(Xor(c, Wide(b))), 8))
  }

  function Updates(c: bv32, s: seq<bv8>): bv32
    decreases |s|
  {
    if s == [] then c else Updates(Update(c, s[0]), s[1..])
  }

  predicate Clear(w: bv32, n: nat)
    decreases n
  {
    n == 0 || (Even(w) && Clear(Half(w), n - 1))
  }

  lemma ClearNibble(w: bv32)
    requires w & 0xF == 0
    ensures Even(w) && Even(Half(w)) && Even(Half(Half(w))) && Even(Half(Half(Half(w))))
  {
  }

  lemma Clear4(w: bv32, n: nat)
    requires w & 0xF == 0 && Clear(Half4(w), n)
    ensures Clear(w, n + 4)
  {
    ClearNibble(w);
    hide Half, Even;
    assert Clear(Half(Half(Half(w))), n + 1);
    assert Clear(Half(Half(w)), n + 2);
    assert Clear(Half(w), n + 3);
  }

  lemma ClearHalves(w: bv32)
    requires LowByte(w) == 0
    ensures w & 0xF == 0 && Half4(w) & 0xF == 0
  {
  }

  lemma Clear8(w: bv32)
    requires LowByte(w) == 0
    ensures Clear(w, 8)
  {
    ClearHalves(w);
    hide Half, Even, Half4, LowByte;
    Clear4(Half4(w), 0);
    Clear4(w, 4);
  }

  lemma {:induction false} ShiftsClear(w: bv32, n: nat)
    requires Clear(w, n)
    ensures Shifts(w, n) == Drop(w, n)
    decreases n
  {
    hide Half, Even, Xor;
    if n > 0 {
      ShiftsClear(Half(w), n - 1);
    }
  }

  /** Eight shifts of a word whose low byte is clear only move it. */
  lemma ShiftsHigh(w: bv32)
    requires LowByte(w) == 0
    ensures Shifts(w, 8) == Down8(w)
  {
    hide LowByte, Down8, Half4, Half, Even, Xor;
    Clear8(w);
    ShiftsClear(w, 8);
    Drop8(w);
    Half8(w, 0);
  }

  lemma MixHigh(c: bv32, b: bv8)
    ensures Down8(Xor(c, Wide(b))) == Down8(c)
  {
  }

  lemma UpdateIsShifts(c: bv32, b: bv8)
    ensures Update(c, b) == Shifts(Xor(c, Wide(b)), 8)
  {
    hide Xor, Wide, LowByte, HighBytes, Down8, Shift;
    var z := Xor(c, Wide(b));
    SplitWord(z);
    ShiftsLinear(LowByte(z), HighBytes(z), 8);
    ShiftsHigh(HighBytes(z));
    MixHigh(c, b);
    XorCommutes(Shifts(LowByte(z), 8), Down8(z));
  }

  /** The table form refines the bit-serial one, from every register value. */
  lemma {:induction false} UpdatesAreFeeds(c: bv32, s: seq<bv8>)
    ensures Updates(c, s) == FeedBits(c, MessageBits(s))
    decreases |s|
  {
    hide Xor, Wide, Update, FeedBit, Shift, LowBits, Even, Half;
    if s != [] {
      UpdateIsShifts(c, s[0]);
      FeedByte(c, s[0]);
      UpdatesAreFeeds(Update(c, s[0]), s[1..]);
      FeedBitsConcat(c, LowBits(Wide(s[0]), 8), MessageBits(s[1..]));
    }
  }

  lemma {:induction false} UpdatesConcat(c: bv32, s: seq<bv8>, t: seq<bv8>)
    ensures Updates(c, s + t) == Updates(Updates(c, s), t)
    decreases |s|
  {
    hide Update;
    if s == [] {
      assert s + t == t;
    } else {
      assert (s + t)[1..] == s[1..] + t;
      UpdatesConcat(Update(c, s[0]), s[1..], t);
    }
  }

  // ---- Error detection

  lemma UpdateInjective(c: bv32, d: bv32, b: bv8)
    requires Update(c, b) == Update(d, b)
    ensures c == d
  {
    hide Xor, Wide, Update, Shift;
    UpdateIsShifts(c, b);
    UpdateIsShifts(d, b);
    ShiftsInjective(Xor(c, Wide(b)), Xor(d, Wide(b)), 8);
    XorCancels(c, d, Wide(b));
  }

  /** Equal tails keep different registers different. */
  lemma {:induction false} UpdatesInjective(c: bv32, d: bv32, s: seq<bv8>)
    requires Updates(c, s) == Updates(d, s)
    ensures c == d
    decreases |s|
  {
    hide Update;
    if s != [] {
      UpdatesInjective(Update(c, s[0]), Update(d, s[0]), s[1..]);
      UpdateInjective(c, d, s[0]);
    }
  }

  /** Four message bytes as the word the register mixes in, first byte lowest. */
  function Word(a: bv8, b: bv8, c: bv8, d: bv8): bv32 {
    Xor(Xor(Xor(Wide(a), Up8(Wide(b))), Up8(Up8(Wide(c)))), Up8(Up8(Up8(Wide(d)))))
  }

  lemma WordBytes(a: bv8, b: bv8, c: bv8, d: bv8)
    ensures var w := Word(a, b, c, d);
            && LowByte(w) as bv8 == a
            && LowByte(Down8(w)) as bv8 == b
            && LowByte(Down8(Down8(w))) as bv8 == c
            && LowByte(Down8(Down8(Down8(w)))) as bv8 == d
  {
  }

  lemma WordInjective(s: seq<bv8>, t: seq<bv8>)
    requires |s| == |t| == 4 && Word(s[0], s[1], s[2], s[3]) == Word(t[0], t[1], t[2], t[3])
    ensures s == t
  {
    hide Word, LowByte, Down8;
    WordBytes(s[0], s[1], s[2], s[3]);
    WordBytes(t[0], t[1], t[2], t[3]);
  }

  lemma UpDown(b: bv8)
    ensures forall w :: LowByte(Up8(w)) == 0
    ensures Down8(Up8(Wide(b))) == Wide(b)
    ensures Down8(Up8(Up8(Wide(b)))) == Up8(Wide(b))
    ensures Down8(Up8(Up8(Up8(Wide(b))))) == Up8(Up8(Wide(b)))
  {
  }

  /** A byte that arrives after `k` others is the same byte mixed in `k` places higher at the start. */
  lemma DelayedByte(x: bv32, b: bv8)
    ensures Xor(Shifts(x, 8), Wide(b)) == Shifts(Xor(x, Up8(Wide(b))), 8)
    ensures Xor(Shifts(x, 16), Wide(b)) == Shifts(Xor(x, Up8(Up8(Wide(b)))), 16)
    ensures Xor(Shifts(x, 24), Wide(b)) == Shifts(Xor(x, Up8(Up8(Up8(Wide(b))))), 24)
  {
    UpDown(b);
    hide Xor, Wide, Up8, LowByte, Down8, Shift;
    var u1 := Up8(Wide(b));
    var u2 := Up8(u1);
    var u3 := Up8(u2);
    ShiftsHigh(u1);
    ShiftsHigh(u2);
    ShiftsHigh(u3);
    ShiftsAdd(u2, 8, 8);
    ShiftsAdd(u3, 8, 16);
    ShiftsLinear(x, u1, 8);
    ShiftsLinear(x, u2, 16);
    ShiftsLinear(x, u3, 24);
  }

  lemma {:induction false} UpdatesOfFour(c: bv32, s: seq<bv8>)
    requires |s| == 4
    ensures Updates(c, s) == Update(Update(Update(Update(c, s[0]), s[1]), s[2]), s[3])
  {
    hide Update;
    var r := Update(Update(Update(c, s[0]), s[1]), s[2]);
    assert s[1..][1..] == s[2..] && s[2..][1..] == s[3..] && s[3..][1..] == [];
    assert Updates(r, s[3..]) == Updates(Update(r, s[3]), []);
    assert Updates(Update(Update(c, s[0]), s[1]), s[2..]) == Updates(r, s[3..]);
  }

  lemma FourUpdates(c: bv32, s: seq<bv8>)
    requires |s| == 4
    ensures Updates(c, s) == Shifts(Xor(c, Word(s[0], s[1], s[2], s[3])), 32)
  {
    hide *;
    UpdatesOfFour(c, s);
    var x1 := Xor(c, Wide(s[0]));
    var x2 := Xor(x1, Up8(Wide(s[1])));
    var x3 := Xor(x2, Up8(Up8(Wide(s[2]))));
    UpdateIsShifts(c, s[0]);
    DelayedUpdate(x1, s[1]);
    DelayedUpdate(x2, s[2]);
    DelayedUpdate(x3, s[3]);
    Regroup(c, Wide(s[0]), Up8(Wide(s[1])), Up8(Up8(Wide(s[2]))), Up8(Up8(Up8(Wide(s[3])))));
    WordIs(s[0], s[1], s[2], s[3]);
  }

  lemma WordIs(a: bv8, b: bv8, c: bv8, d: bv8)
    ensures Word(a, b, c, d) == Xor(Xor(Xor(Wide(a), Up8(Wide(b))), Up8(Up8(Wide(c)))), Up8(Up8(Up8(Wide(d)))))
  {
    hide Xor, Wide, Up8;
  }

  /** The same for the whole table step of that byte. */
  lemma DelayedUpdate(x: bv32, b: bv8)
    ensures Update(Shifts(x, 8), b) == Shifts(Xor(x, Up8(Wide(b))), 16)
    ensures Update(Shifts(x, 16), b) == Shifts(Xor(x, Up8(Up8(Wide(b)))), 24)
    ensures Update(Shifts(x, 24), b) == Shifts(Xor(x, Up8(Up8(Up8(Wide(b))))), 32)
  {
    hide *;
    UpdateIsShifts(Shifts(x, 8), b);
    UpdateIsShifts(Shifts(x, 16), b);
    UpdateIsShifts(Shifts(x, 24), b);
    DelayedByte(x, b);
    ShiftsAdd(Xor(x, Up8(Wide(b))), 8, 8);
    ShiftsAdd(Xor(x, Up8(Up8(Wide(b)))), 16, 8);
    ShiftsAdd(Xor(x, Up8(Up8(Up8(Wide(b))))), 24, 8);
  }

  lemma Regroup(c: bv32, a: bv32, b: bv32, d: bv32, e: bv32)
    ensures Xor(Xor(Xor(Xor(c, a), b), d), e) == Xor(c, Xor(Xor(Xor(a, b), d), e))
  {
    hide Xor;
    XorAssociates(c, a, b);
    XorAssociates(c, Xor(a, b), d);
    XorAssociates(c, Xor(Xor(a, b), d), e);
  }

  /** From one register value, different four bytes lead to different register values. */
  lemma FourUpdatesInjective(c: bv32, u: seq<bv8>, v: seq<bv8>)
    requires |u| == |v| == 4 && Updates(c, u) == Updates(c, v)
    ensures u == v
  {
    hide Xor, Word, Update, Shift;
    FourUpdates(c, u);
    FourUpdates(c, v);
    var w, z := Word(u[0], u[1], u[2], u[3]), Word(v[0], v[1], v[2], v[3]);
    ShiftsInjective(Xor(c, w), Xor(c, z), 32);
    XorCommutes(c, w);
    XorCommutes(c, z);
    XorCancels(w, z, c);
    WordInjective(u, v);
  }

  /** Two messages that differ, but only inside the four bytes at `k`, have different checksums. */
  lemma BurstChangesReference(s: seq<bv8>, t: seq<bv8>, k: nat)
    requires |s| == |t| && k + 4 <= |s|
    requires s[..k] == t[..k] && s[k + 4..] == t[k + 4..] && s != t
    ensures Reference(s) != Reference(t)
  {
    hide *;
    var u, v := s[k..k + 4], t[k..k + 4];
    var c := Updates(ONES, s[..k]);
    UpdatesAround(s, k);
    UpdatesAround(t, k);
    assert s == s[..k] + u + s[k + 4..] && t == t[..k] + v + t[k + 4..];
    if Reference(s) == Reference(t) {
      XorCancels(Updates(ONES, s), Updates(ONES, t), ONES);
      UpdatesInjective(Updates(c, u), Updates(c, v), s[k + 4..]);
      FourUpdatesInjective(c, u, v);
    }
  }

  /** The register at the end, from what comes before the four bytes at `k`, those four, and what follows. */
  lemma UpdatesAround(s: seq<bv8>, k: nat)
    requires k + 4 <= |s|
    ensures Reference(s) == Xor(Updates(ONES, s), ONES)
    ensures Updates(ONES, s) == Updates(Updates(Updates(ONES, s[..k]), s[k..k + 4]), s[k + 4..])
  {
    ReferenceIs(s);
    hide Xor, Update, Updates, Reference;
    var p, u, q := s[..k], s[k..k + 4], s[k + 4..];
    assert s == p + (u + q);
    UpdatesConcat(ONES, p, u + q);
    UpdatesConcat(Updates(ONES, p), u, q);
  }

  // ---- The check value

  lemma EightShifts(x: bv32)
    ensures Shifts(x, 8) == Shift(Shift(Shift(Shift(Shift(Shift(Shift(Shift(x))))))))
  {
    hide Shift;
    ShiftsAdd(x, 4, 4);
  }

  lemma OneStep(c: bv32, b: bv8, d: bv32)
    requires d == Xor(Down8(c), Shift(Shift(Shift(Shift(Shift(Shift(Shift(Shift(LowByte(Xor(c, Wide(b))))))))))))
    ensures Update(c, b) == d
  {
    EightShifts(LowByte(Xor(c, Wide(b))));
    hide Shift, Xor, Down8, LowByte, Wide, Shifts;
  }

  lemma UpdatesFrom(c: bv32, s: seq<bv8>, i: nat, d: bv32)
    requires i < |s| && Update(c, s[i]) == d
    ensures Updates(c, s[i..]) == Updates(d, s[i + 1..])
  {
    hide Update;
    assert s[i..][1..] == s[i + 1..];
  }

  lemma FirstDigits(s: seq<bv8>)
    requires |s| == 9 && s[0] == 49 && s[1] == 50 && s[2] == 51 && s[3] == 52 && s[4] == 53
    ensures Updates(0xFFFF_FFFF, s[0..]) == Updates(0x340A_C5E3, s[5..])
  {
    hide Update, Updates;
    OneStep(0xFFFF_FFFF, 49, 0x7C23_1048);
    UpdatesFrom(0xFFFF_FFFF, s, 0, 0x7C23_1048);
    OneStep(0x7C23_1048, 50, 0xB0AC_BB32);
    UpdatesFrom(0x7C23_1048, s, 1, 0xB0AC_BB32);
    OneStep(0xB0AC_BB32, 51, 0x77B7_9C2D);
    UpdatesFrom(0xB0AC_BB32, s, 2, 0x77B7_9C2D);
    OneStep(0x77B7_9C2D, 52, 0x641C_1F5C);
    UpdatesFrom(0x77B7_9C2D, s, 3, 0x641C_1F5C);
    OneStep(0x641C_1F5C, 53, 0x340A_C5E3);
    UpdatesFrom(0x641C_1F5C, s, 4, 0x340A_C5E3);
  }

  lemma LastDigits(s: seq<bv8>)
    requires |s| == 9 && s[5] == 54 && s[6] == 55 && s[7] == 56 && s[8] == 57
    ensures Updates(0x340A_C5E3, s[5..]) == Updates(0x340B_C6D9, s[9..])
  {
    hide Update, Updates;
    OneStep(0x340A_C5E3, 54, 0xF68D_2C9E);
    UpdatesFrom(0x340A_C5E3, s, 5, 0xF68D_2C9E);
    OneStep(0xF68D_2C9E, 55, 0xAFFC_9660);
    UpdatesFrom(0xF68D_2C9E, s, 6, 0xAFFC_9660);
    OneStep(0xAFFC_9660, 56, 0x651F_2550);
    UpdatesFrom(0xAFFC_9660, s, 7, 0x651F_2550);
    OneStep(0x651F_2550, 57, 0x340B_C6D9);
    UpdatesFrom(0x651F_2550, s, 8, 0x340B_C6D9);
  }

  /** The well-known check value: the digits from one to nine have the checksum CBF43926. */
  lemma CheckValue()
    ensures Reference([49, 50, 51, 52, 53, 54, 55, 56, 57]) == 0xCBF4_3926
  {
    hide Update, Updates, Reference;
    NineDigits([49, 50, 51, 52, 53, 54, 55, 56, 57]);
  }

  lemma NineDigits(s: seq<bv8>)
    requires |s| == 9 && s[0] == 49 && s[1] == 50 && s[2] == 51 && s[3] == 52 && s[4] == 53
    requires s[5] == 54 && s[6] == 55 && s[7] == 56 && s[8] == 57
    ensures Reference(s) == 0xCBF4_3926
  {
    hide Update, Updates, Reference;
    FirstDigits(s);
    LastDigits(s);
    ReferenceIs(s);
    NoUpdates(0x340B_C6D9, s);
  }

  lemma NoUpdates(c: bv32, s: seq<bv8>)
    ensures Updates(c, s[|s|..]) == c && s[0..] == s
  {
  }

  lemma ReferenceIs(s: seq<bv8>)
    ensures Reference(s) == Xor(Updates(ONES, s), ONES)
  {
    UpdatesAreFeeds(ONES, s);
    hide Updates, FeedBits, MessageBits, Xor;
  }

  // ---- Byte payloads

  /** The bit pattern of a byte, counted up so that its numeric value is plain. */
  function Bv(b: byte): (v: bv8)
    ensures v as int == b
  {
    if b == 0 then 0 else Bv(b - 1) + 1
  }

  lemma BvOfValue(v: bv8)
    ensures 0 <= v as int < 256 && Bv(v as int) == v
  {
  }

  function Bvs(s: Data): seq<bv8> { seq(|s|, i requires 0 <= i < |s| => Bv(s[i])) }

  function Nat(w: bv32): nat { w as nat }

  /** The checksum of a payload. */
  function Crc(s: Data): nat { Nat(Reference(Bvs(s))) }

  lemma NatInverse(w: bv32)
    ensures Nat(w) < 0x1_0000_0000
    ensures Nat(w) as bv32 == w
  {
  }

  lemma NatInjective(x: bv32, y: bv32)
    requires Nat(x) == Nat(y)
    ensures x == y
  {
    NatInverse(x);
    NatInverse(y);
  }

  lemma CrcRange(s: Data)
    ensures Crc(s) < 0x1_0000_0000
  {
    hide Nat, Reference;
    NatInverse(Reference(Bvs(s)));
  }

  /** Every change confined to four consecutive payload bytes changes the checksum. */
  lemma BurstChangesCrc(s: Data, t: Data, k: nat)
    requires |s| == |t| && k + 4 <= |s|
    requires s[..k] == t[..k] && s[k + 4..] == t[k + 4..] && s != t
    ensures Crc(s) != Crc(t)
  {
    BvsCut(s, k);
    BvsCut(t, k);
    BvsCut(s, k + 4);
    BvsCut(t, k + 4);
    BvsDiffer(s, t);
    hide Bvs, Bv, Nat, Reference;
    BurstChangesReference(Bvs(s), Bvs(t), k);
    if Crc(s) == Crc(t) {
      NatInjective(Reference(Bvs(s)), Reference(Bvs(t)));
    }
  }

  lemma BvsCut(s: Data, k: nat)
    requires k <= |s|
    ensures |Bvs(s)| == |s|
    ensures Bvs(s)[..k] == Bvs(s[..k]) && Bvs(s)[k..] == Bvs(s[k..])
  {
    hide Bv;
  }

  lemma BvsDiffer(s: Data, t: Data)
    requires |s| == |t| && s != t
    ensures Bvs(s) != Bvs(t)
  {
    hide Bv;
    var i :| 0 <= i < |s| && s[i] != t[i];
    assert Bvs(s)[i] as int == s[i] && Bvs(t)[i] as int == t[i];
  }

  // ---- The loops of the client

  function Entry(i: byte): bv32 {
    Shifts(Wide(Bv(i)), 8)
  }

  /** The inner loop over eight bits. */
  method TableEntry(i: byte) returns (crc: bv32)
    ensures crc == Entry(i)
  {
    hide Bv;
    crc := Wide(Bv(i));
    for j := 0 to 8
      invariant Shifts(crc, 8 - j) == Entry(i)
    {
      if crc & 1 == 1 {
        crc := (crc >> 1) ^ POLYNOMIAL;
      } else {
        crc := crc >> 1;
      }
    }
  }

  method BuildTable() returns (table: array<bv32>)
    ensures fresh(table) && table.Length == 256
    ensures forall i :: 0 <= i < 256 ==> table[i] == Entry(i)
  {
    hide Entry;
    table := new bv32[256];
    for i := 0 to 256
      invariant forall k :: 0 <= k < i ==> table[k] == Entry(k)
    {
      table[i] := TableEntry(i);
    }
  }

  function Index(w: bv32): bv8 { LowByte(w) as bv8 }

  lemma LookUp(w: bv32, v: bv8)
    requires v == Index(w)
    ensures 0 <= v as int < 256
    ensures Entry(v as int) == Shifts(LowByte(w), 8)
  {
    hide Bv, Shift;
    BvOfValue(v);
  }

  method Checksum(payload: Data) returns (sum: nat)
    ensures sum == Crc(payload)
  {
    hide Xor, Wide, LowByte, Down8, FeedBit, Shift, Bv, Nat, Entry, Index;
    var table := BuildTable();
    ghost var all := Bvs(payload);
    var crc := ONES;
    for i := 0 to |payload|
      invariant forall k :: 0 <= k < 256 ==> table[k] == Entry(k)
      invariant Updates(ONES, all) == Updates(crc, all[i..])
    {
      var b := Bv(payload[i]);
      assert all[i..][0] == b && all[i..][1..] == all[i + 1..];
      var mixed := Xor(crc, Wide(b));
      var index := Index(mixed);
      LookUp(mixed, index);
      crc := Xor(Down8(crc), table[index as int]);
    }
    assert all[|payload|..] == [];
    UpdatesAreFeeds(ONES, all);
    sum := Nat(Xor(crc, ONES));
  }
}
