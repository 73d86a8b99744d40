/** UTF-8 as in section 3 of RFC 3629, over strings whose `char`s are bytes, and cutting on rune boundaries. */
module Utf8Text {
  type Text = string

  /** The byte that starts a rune: anything but a continuation byte. */
  predicate RuneStart(b: char) {
    !(0x80 as char <= b < 0xC0 as char)
  }

  /** How many bytes the rune takes that `b` starts; zero when no rune starts with it. */
  function LeadWidth(b: char): nat {
    if b < 0x80 as char then 1
    else if 0xC2 as char <= b < 0xE0 as char then 2
    else if 0xE0 as char <= b < 0xF0 as char then 3
    else if 0xF0 as char <= b < 0xF5 as char then 4
    else 0
  }

  /** The second byte is restricted after four lead bytes. */
  predicate SecondByte(lead: char, b: char) {
    && 0x80 as char <= b < 0xC0 as char
    && (lead == 0xE0 as char ==> b >= 0xA0 as char) && (lead == 0xED as char ==> b < 0xA0 as char)
    && (lead == 0xF0 as char ==> b >= 0x90 as char) && (lead == 0xF4 as char ==> b < 0x90 as char)
  }

  /** `t` starts with a whole rune of `w` bytes. */
  predicate StartsRune(t: Text, w: nat) {
    && 0 < w <= |t| && LeadWidth(t[0]) == w
    && (w > 1 ==> SecondByte(t[0], t[1]))
    && (forall i :: 1 <= i < w ==> !RuneStart(t[i]))
  }

  predicate ValidUtf8(t: Text) {
    t == [] || (StartsRune(t, LeadWidth(t[0])) && ValidUtf8(t[LeadWidth(t[0])..]))
  }

  /** The width of the first rune. */
  function Width(t: Text): nat {
    if t == [] then 0 else LeadWidth(t[0])
  }

  /** `end` falls between two runes of `t`, or at its end. */
  predicate Boundary(t: Text, end: nat) {
    end == |t| || (end < |t| && RuneStart(t[end]))
  }

  /** A valid text cut at a boundary gives two valid texts. */
  lemma {:induction false} CutIsValid(t: Text, end: nat)
    requires ValidUtf8(t) && Boundary(t, end)
    ensures ValidUtf8(t[..end]) && ValidUtf8(t[end..])
    decreases |t|
  {
    if end == 0 {
      assert t[0..] == t && t[..0] == [];
    } else {
      var w := Width(t);
      assert end >= w;
      var rest := t[w..];
      assert Boundary(rest, end - w);
      CutIsValid(rest, end - w);
      assert t[end..] == rest[end - w..];
      assert t[..end][w..] == rest[..end - w];
      assert StartsRune(t[..end], w);
      hide StartsRune, Boundary;
    }
  }

  /** The first boundary after the start of a valid text is the end of its first rune. */
  lemma FirstBoundary(t: Text, end: nat)
    requires ValidUtf8(t) && t != [] && Boundary(t, end) && end > 0
    ensures 1 <= Width(t) <= end && Width(t) <= 4
  {
  }

  lemma FirstRuneBoundary(t: Text)
    requires ValidUtf8(t) && t != []
    ensures Width(t) <= |t| && Boundary(t, Width(t))
  {
    var rest := t[Width(t)..];
    if rest != [] {
      assert rest[0] == t[Width(t)];
      LeadIsStart(rest[0]);
    }
  }

  lemma LeadIsStart(b: char)
    requires LeadWidth(b) > 0
    ensures RuneStart(b)
  {
  }

  /** The last boundary at or before `end`, zero when there is none. */
  function PrefixEnd(t: Text, end: nat): (r: nat)
    ensures r <= end && r <= |t|
  {
    if end >= |t| then |t| else if end == 0 || RuneStart(t[end]) then end else PrefixEnd(t, end - 1)
  }

  lemma {:induction false} PrefixEndLaw(t: Text, end: nat)
    requires ValidUtf8(t)
    ensures Boundary(t, PrefixEnd(t, end))
    ensures forall b: nat :: Boundary(t, b) && b <= end ==> b <= PrefixEnd(t, end)
    decreases end
  {
    if end < |t| && end > 0 && !RuneStart(t[end]) {
      PrefixEndLaw(t, end - 1);
    } else if end == 0 && t != [] {
      LeadIsStart(t[0]);
    }
  }

  /** It is zero exactly when the first rune does not fit. */
  lemma PrefixEndZero(t: Text, end: nat)
    requires ValidUtf8(t) && t != []
    ensures PrefixEnd(t, end) == 0 <==> end < Width(t)
    ensures PrefixEnd(t, end) > 0 ==> PrefixEnd(t, end) >= Width(t)
  {
    PrefixEndLaw(t, end);
    FirstRuneBoundary(t);
    if PrefixEnd(t, end) > 0 {
      FirstBoundary(t, PrefixEnd(t, end));
    }
  }

  /** The loop that finds it. */
  method FindPrefixEnd(t: Text, end: nat) returns (r: nat)
    ensures r == PrefixEnd(t, end)
  {
    if end >= |t| {
      return |t|;
    }
    r := end;
    while r > 0 && !RuneStart(t[r])
      invariant r <= end && PrefixEnd(t, end) == PrefixEnd(t, r)
    {
      r := r - 1;
    }
  }

  /** The first `n` runes. */
  function TakeRunes(t: Text, n: nat): Text
    requires ValidUtf8(t)
    decreases n
  {
    if n == 0 || t == [] then [] else t[..Width(t)] + TakeRunes(t[Width(t)..], n - 1)
  }

  lemma {:induction false} TakeRunesLaw(t: Text, n: nat)
    requires ValidUtf8(t)
    ensures |TakeRunes(t, n)| <= |t| && TakeRunes(t, n) == t[..|TakeRunes(t, n)|]
    ensures ValidUtf8(TakeRunes(t, n)) && TakeRunes(TakeRunes(t, n), n) == TakeRunes(t, n)
    decreases n
  {
    if n > 0 && t != [] {
      var w := Width(t);
      var rest := t[w..];
      TakeRunesLaw(rest, n - 1);
      var taken := TakeRunes(t, n);
      assert taken == t[..|taken|];
      assert taken[w..] == TakeRunes(rest, n - 1) && taken[..w] == t[..w];
      assert Width(taken) == w && StartsRune(taken, w);
    }
  }

  /** How many runes a valid text has: one for each byte that is not a continuation byte. */
  function RuneCount(t: Text): nat {
    if t == [] then 0 else (if RuneStart(t[0]) then 1 else 0) + RuneCount(t[1..])
  }

  lemma {:induction false} CountSkips(t: Text, k: nat)
    requires k <= |t| && forall i :: 0 <= i < k ==> !RuneStart(t[i])
    ensures RuneCount(t) == RuneCount(t[k..])
    decreases k
  {
    if k == 0 {
      assert t[0..] == t;
    } else {
      CountSkips(t[1..], k - 1);
      assert t[1..][k - 1..] == t[k..];
    }
  }

  lemma CountFirst(t: Text)
    requires t != [] && StartsRune(t, Width(t))
    ensures RuneCount(t) == 1 + RuneCount(t[Width(t)..])
  {
    LeadIsStart(t[0]);
    CountSkips(t[1..], Width(t) - 1);
    assert t[1..][Width(t) - 1..] == t[Width(t)..];
  }

  /** It has `n` runes, or all of a shorter text. */
  lemma {:induction false} TakeRunesCount(t: Text, n: nat)
    requires ValidUtf8(t)
    ensures RuneCount(TakeRunes(t, n)) == if n < RuneCount(t) then n else RuneCount(t)
    decreases n
  {
    if n > 0 && t != [] {
      var w := Width(t);
      TakeRunesCount(t[w..], n - 1);
      CountFirst(t);
      var taken := TakeRunes(t, n);
      assert StartsRune(taken, w) && taken[w..] == TakeRunes(t[w..], n - 1);
      CountFirst(taken);
    }
  }
}
