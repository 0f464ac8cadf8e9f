/**
 White space in UTF-8 bytes: the ASCII blanks and the others that Unicode
 knows, at either end of a line.
 */
module WhiteSpace {
  import opened Wrappers

  /** The width of the white space character the bytes begin with, 0 if they
      begin with another. UTF-8 synchronises itself, so looking at every byte
      finds the same characters as going from one to the next. */
  function SpaceWidth(s: Bytes): (w: nat)
    ensures w <= |s|
  {
    if |s| >= 1 && (9 <= s[0] <= 13 || s[0] == 32) then 1
    else if |s| >= 2 && s[0] == 0xC2 && (s[1] == 0x85 || s[1] == 0xA0) then 2
    else if |s| >= 3 && ((s[0] == 0xE1 && s[1] == 0x9A && s[2] == 0x80) ||
                         (s[0] == 0xE2 && s[1] == 0x80
                           && (0x80 <= s[2] <= 0x8A || s[2] == 0xA8 || s[2] == 0xA9 || s[2] == 0xAF)) ||
                         (s[0] == 0xE2 && s[1] == 0x81 && s[2] == 0x9F) ||
                         (s[0] == 0xE3 && s[1] == 0x80 && s[2] == 0x80)) then 3
    else 0
  }

  /** A character of the basic plane in UTF-8. */
  function Utf8(c: nat): Bytes
    requires c < 0x1_0000
  {
    if c < 0x80 then [c as byte]
    else if c < 0x800 then [(0xC0 + c / 0x40) as byte, (0x80 + c % 0x40) as byte]
    else [(0xE0 + c / 0x1000) as byte, (0x80 + c / 0x40 % 0x40) as byte, (0x80 + c % 0x40) as byte]
  }

  /** The white space of Unicode. */
  predicate IsSpace(c: nat) {
    || c in {0x9, 0xA, 0xB, 0xC, 0xD, 0x20, 0x85, 0xA0, 0x1680}
    || 0x2000 <= c <= 0x200A
    || c in {0x2028, 0x2029, 0x202F, 0x205F, 0x3000}
  }

  lemma {:induction false} ThreeBytes(c: nat)
    requires c < 0x1_0000
    ensures c == 0x1000 * (c / 0x1000) + 0x40 * (c / 0x40 % 0x40) + c % 0x40
  {
    assert c == 0x40 * (c / 0x40) + c % 0x40;
    assert c / 0x40 / 0x40 == c / 0x1000;
  }

  /** The bytes of a character count as white space, all of them, iff Unicode
      says the character is. */
  lemma {:induction false} SpaceIsUnicode(c: nat, rest: Bytes)
    requires c < 0x1_0000
    ensures SpaceWidth(Utf8(c) + rest) == if IsSpace(c) then |Utf8(c)| else 0
  {
    ThreeBytes(c);
    var s := Utf8(c) + rest;
    assert forall i | 0 <= i < |Utf8(c)| :: s[i] == Utf8(c)[i];
    if c < 0x80 {
      assert s[0] as int == c;
    } else if c < 0x800 {
      TwoByteSpace(c, s);
    } else {
      ThreeByteSpace(c, s);
    }
  }

  lemma {:induction false} TwoByteSpace(c: nat, s: Bytes)
    requires 0x80 <= c < 0x800 && |s| >= 2
    requires s[0] as int == 0xC0 + c / 0x40 && s[1] as int == 0x80 + c % 0x40
    ensures SpaceWidth(s) == if IsSpace(c) then 2 else 0
  {}

  lemma {:induction false} ThreeByteSpace(c: nat, s: Bytes)
    requires 0x800 <= c < 0x1_0000 && |s| >= 3
    requires s[0] as int == 0xE0 + c / 0x1000 && s[1] as int == 0x80 + c / 0x40 % 0x40 && s[2] as int == 0x80 + c % 0x40
    ensures SpaceWidth(s) == if IsSpace(c) then 3 else 0
  {
    ThreeBytes(c);
  }

  /** No character beyond the basic plane is white space. */
  lemma {:induction false} FourByteSpace(s: Bytes)
    requires |s| > 0 && s[0] >= 0xF0
    ensures SpaceWidth(s) == 0
  {}

  /** The same at the other end. */
  function TrailWidth(s: Bytes): (w: nat)
    ensures w <= |s|
    ensures w > 0 ==> SpaceWidth(s[|s| - w..]) == w
  {
    var n := |s|;
    if n >= 1 && SpaceWidth(s[n - 1..]) == 1 then 1
    else if n >= 2 && SpaceWidth(s[n - 2..]) == 2 then 2
    else if n >= 3 && SpaceWidth(s[n - 3..]) == 3 then 3
    else 0
  }

  /** Some white space character is the end of the bytes. */
  ghost predicate EndsInSpace(s: Bytes) {
    exists w: nat :: EndsWith(s, w)
  }

  predicate EndsWith(s: Bytes, w: nat) {
    0 < w <= |s| && SpaceWidth(s[|s| - w..]) == w
  }

  lemma {:induction false} TrailIff(s: Bytes)
    ensures TrailWidth(s) > 0 <==> EndsInSpace(s)
  {
    if TrailWidth(s) > 0 {
      assert EndsWith(s, TrailWidth(s));
    }
    if w: nat :| EndsWith(s, w) {
      assert w == 1 || w == 2 || w == 3;
    }
  }

  function TrimLeft(s: Bytes): Bytes {
    if SpaceWidth(s) == 0 then s else TrimLeft(s[SpaceWidth(s)..])
  }

  function TrimRight(s: Bytes): Bytes {
    if TrailWidth(s) == 0 then s else TrimRight(s[..|s| - TrailWidth(s)])
  }

  function Trim(s: Bytes): Bytes {
    TrimRight(TrimLeft(s))
  }

  predicate Blanks(s: Bytes) {
    |s| == 0 || (SpaceWidth(s) > 0 && Blanks(s[SpaceWidth(s)..]))
  }

  lemma {:induction false} BlanksJoin(a: Bytes, b: Bytes)
    requires Blanks(a) && Blanks(b)
    ensures Blanks(a + b)
  {
    if |a| == 0 {
      assert a + b == b;
    } else {
      var w := SpaceWidth(a);
      assert SpaceWidth(a + b) == w && (a + b)[w..] == a[w..] + b;
      BlanksJoin(a[w..], b);
    }
  }

  lemma {:induction false} OneBlank(s: Bytes)
    requires SpaceWidth(s) > 0
    ensures Blanks(s[..SpaceWidth(s)])
  {
    var w := SpaceWidth(s);
    assert SpaceWidth(s[..w]) == w;
    assert s[..w][w..] == [];
  }

  lemma {:induction false} BlanksBefore(s: Bytes, w: nat, a: Bytes, t: Bytes)
    requires w <= |s| && s[w..] == a + t && Blanks(s[..w]) && Blanks(a)
    ensures s == s[..w] + a + t && Blanks(s[..w] + a)
  {
    BlanksJoin(s[..w], a);
    Pieces(s[..w], a, t);
  }

  lemma {:induction false} LeftSplits(s: Bytes) returns (a: Bytes)
    ensures s == a + TrimLeft(s) && Blanks(a) && SpaceWidth(TrimLeft(s)) == 0
  {
    a := [];
    var w := SpaceWidth(s);
    if w > 0 {
      var rest := LeftSplits(s[w..]);
      OneBlank(s);
      BlanksBefore(s, w, rest, TrimLeft(s[w..]));
      a := s[..w] + rest;
    }
  }

  lemma {:induction false} Pieces(a: Bytes, b: Bytes, c: Bytes)
    ensures a + (b + c) == a + b + c
  {}

  lemma {:induction false} LastBlank(s: Bytes)
    requires TrailWidth(s) > 0
    ensures Blanks(s[|s| - TrailWidth(s)..])
  {
    var last := s[|s| - TrailWidth(s)..];
    OneBlank(last);
    assert last[..|last|] == last;
  }

  lemma {:induction false} BlanksAfter(s: Bytes, w: nat, t: Bytes, b: Bytes)
    requires w <= |s| && s[..|s| - w] == t + b && Blanks(b) && Blanks(s[|s| - w..])
    ensures s == t + (b + s[|s| - w..]) && Blanks(b + s[|s| - w..])
  {
    BlanksJoin(b, s[|s| - w..]);
    Pieces(t, b, s[|s| - w..]);
  }

  lemma {:induction false} RightSplits(s: Bytes) returns (b: Bytes)
    ensures s == TrimRight(s) + b && Blanks(b) && TrailWidth(TrimRight(s)) == 0
  {
    b := [];
    var w := TrailWidth(s);
    if w > 0 {
      var rest := RightSplits(s[..|s| - w]);
      LastBlank(s);
      BlanksAfter(s, w, TrimRight(s[..|s| - w]), rest);
      b := rest + s[|s| - w..];
    }
  }

  lemma {:induction false} SpaceStays(s: Bytes, more: Bytes)
    requires SpaceWidth(s) > 0
    ensures SpaceWidth(s + more) == SpaceWidth(s)
  {}

  /** Trimming takes white space off both ends, all of it and nothing else. */
  lemma {:induction false} TrimSplits(s: Bytes) returns (a: Bytes, b: Bytes)
    ensures s == a + Trim(s) + b && Blanks(a) && Blanks(b)
    ensures SpaceWidth(Trim(s)) == 0 && !EndsInSpace(Trim(s))
  {
    TrailIff(Trim(s));
    a := LeftSplits(s);
    b := RightSplits(TrimLeft(s));
    if SpaceWidth(Trim(s)) > 0 {
      SpaceStays(Trim(s), b);
    }
    Pieces(a, Trim(s), b);
  }
}
