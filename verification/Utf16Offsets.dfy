/**
 Offsets of text entities: they come in UTF-16 code units and are needed as bytes of UTF-8
 text.  The reference is a text as a list of code points with both encodings
 (section 3 of RFC 3629, section 2.1 of RFC 2781).
 */
module Utf16Offsets {
  import opened Sequences

  type Byte = b: nat | b < 256
  type Unit = u: nat | u < 0x1_0000

  /** A Unicode scalar value. */
  type Scalar = c: nat | c < 0xD800 || 0xE000 <= c < 0x11_0000

  // ----- The two encodings -----

  function Utf8One(c: Scalar): (r: seq<Byte>)
    ensures 1 <= |r| <= 4
  {
    if c < 0x80 then [c]
    else if c < 0x800 then [0xC0 + c / 64, 0x80 + c % 64]
    else if c < 0x1_0000 then [0xE0 + c / 4096, 0x80 + c / 64 % 64, 0x80 + c % 64]
    else [0xF0 + c / 262144, 0x80 + c / 4096 % 64, 0x80 + c / 64 % 64, 0x80 + c % 64]
  }

  function Utf16One(c: Scalar): (r: seq<Unit>)
    ensures 1 <= |r| <= 2
  {
    if c < 0x1_0000 then [c]
    else [0xD800 + (c - 0x1_0000) / 1024, 0xDC00 + (c - 0x1_0000) % 1024]
  }

  function Utf8(cs: seq<Scalar>): seq<Byte>
  {
    if cs == [] then [] else Utf8One(cs[0]) + Utf8(cs[1..])
  }

  function Utf16(cs: seq<Scalar>): seq<Unit>
  {
    if cs == [] then [] else Utf16One(cs[0]) + Utf16(cs[1..])
  }

  // ----- Valid UTF-8 -----

  predicate Continuation(b: Byte) { b / 64 == 2 }

  /** The length of the well-formed, shortest-form sequence that a text starts with, or 0; no zero byte. */
  function FirstLength(s: seq<Byte>): (n: nat)
    ensures n <= |s| && n <= 4
  {
    if s == [] then 0
    else if s[0] < 0x80 then if s[0] == 0 then 0 else 1
    else if 0xC2 <= s[0] < 0xE0 then
      if |s| > 1 && Continuation(s[1]) then 2 else 0
    else if 0xE0 <= s[0] < 0xF0 then
      if |s| > 2 && Continuation(s[1]) && Continuation(s[2])
         && (s[0] == 0xE0 ==> s[1] >= 0xA0) && (s[0] == 0xED ==> s[1] < 0xA0) then 3 else 0
    else if 0xF0 <= s[0] < 0xF5 then
      if |s| > 3 && Continuation(s[1]) && Continuation(s[2]) && Continuation(s[3])
         && (s[0] == 0xF0 ==> s[1] >= 0x90) && (s[0] == 0xF4 ==> s[1] < 0x90) then 4 else 0
    else 0
  }

  function FirstScalar(s: seq<Byte>): (c: Scalar)
    requires FirstLength(s) > 0
    ensures c > 0 && Utf8One(c) == s[..FirstLength(s)]
  {
    var n := FirstLength(s);
    var b0: int := s[0];
    if n == 1 then b0
    else
      var b1: int := s[1] - 0x80;
      if n == 2 then Join2(b0 - 0xC0, b1)
      else
        var b2: int := s[2] - 0x80;
        if n == 3 then Join3(b0 - 0xE0, b1, b2) else Join4(b0 - 0xF0, b1, b2, s[3] - 0x80)
  }

  /** The code point with the given payload bits, which are also the digits of its encoding. */
  function Join2(x: nat, y: nat): (c: Scalar)
    requires 2 <= x < 32 && y < 64
    ensures Utf8One(c) == [0xC0 + x, 0x80 + y]
  {
    x * 64 + y
  }

  function Join3(x: nat, y: nat, z: nat): (c: Scalar)
    requires x < 16 && y < 64 && z < 64 && (x == 0 ==> y >= 32) && (x == 13 ==> y < 32)
    ensures Utf8One(c) == [0xE0 + x, 0x80 + y, 0x80 + z]
  {
    var c := x * 4096 + y * 64 + z;
    assert c / 64 == x * 64 + y;
    c
  }

  function Join4(x: nat, y: nat, z: nat, w: nat): (c: Scalar)
    requires x < 5 && y < 64 && z < 64 && w < 64 && (x == 0 ==> y >= 16) && (x == 4 ==> y < 16)
    ensures Utf8One(c) == [0xF0 + x, 0x80 + y, 0x80 + z, 0x80 + w]
  {
    var high, mid := x * 64 + y, (x * 64 + y) * 64 + z;
    Push(x, y);
    Push(high, z);
    Push(mid, w);
    var c: nat := mid * 64 + w;
    assert c / 4096 == high && c / 262144 == x;
    c
  }

  lemma Push(a: nat, d: nat)
    requires d < 64
    ensures (a * 64 + d) / 64 == a && (a * 64 + d) % 64 == d
  {
  }

  predicate ValidUtf8(s: seq<Byte>)
    decreases |s|
  {
    s == [] || (FirstLength(s) > 0 && ValidUtf8(s[FirstLength(s)..]))
  }

  function Decode(s: seq<Byte>): (cs: seq<Scalar>)
    requires ValidUtf8(s)
    decreases |s|
  {
    if s == [] then [] else [FirstScalar(s)] + Decode(s[FirstLength(s)..])
  }

  predicate NoZero(cs: seq<Scalar>) { forall i :: 0 <= i < |cs| ==> cs[i] != 0 }

  /** The payload bits of an encoding are those of the code point. */
  lemma Digits(c: Scalar)
    ensures c == c / 64 * 64 + c % 64
    ensures c / 64 == c / 4096 * 64 + c / 64 % 64
    ensures c / 4096 == c / 262144 * 64 + c / 4096 % 64
  {
  }

  lemma Utf8IsInjective(c: Scalar, d: Scalar)
    requires Utf8One(c) == Utf8One(d)
    ensures c == d
  {
    Digits(c);
    Digits(d);
    assert Utf8One(c)[0] == Utf8One(d)[0];
    var n := |Utf8One(c)|;
    if n > 1 {
      assert Utf8One(c)[1] == Utf8One(d)[1];
    }
    if n > 2 {
      assert Utf8One(c)[2] == Utf8One(d)[2];
    }
    if n > 3 {
      assert Utf8One(c)[3] == Utf8One(d)[3];
    }
  }

  lemma LengthOfEncoding(c: Scalar, rest: seq<Byte>)
    requires c > 0
    ensures FirstLength(Utf8One(c) + rest) == |Utf8One(c)|
  {
    var s := Utf8One(c) + rest;
    var n := |Utf8One(c)|;
    Digits(c);
    assert s[0] == Utf8One(c)[0];
    assert n > 1 ==> s[1] == Utf8One(c)[1];
    assert n > 2 ==> s[2] == Utf8One(c)[2];
    assert n > 3 ==> s[3] == Utf8One(c)[3];
  }

  lemma FirstOfEncoding(c: Scalar, rest: seq<Byte>)
    requires c > 0
    ensures FirstLength(Utf8One(c) + rest) == |Utf8One(c)|
    ensures FirstScalar(Utf8One(c) + rest) == c
  {
    var s := Utf8One(c) + rest;
    LengthOfEncoding(c, rest);
    assert s[..|Utf8One(c)|] == Utf8One(c);
    Utf8IsInjective(FirstScalar(s), c);
  }

  lemma {:induction false} EncodeThenDecode(cs: seq<Scalar>)
    requires NoZero(cs)
    ensures ValidUtf8(Utf8(cs)) && Decode(Utf8(cs)) == cs
  {
    if cs != [] {
      var rest := Utf8(cs[1..]);
      FirstOfEncoding(cs[0], rest);
      assert (Utf8One(cs[0]) + rest)[|Utf8One(cs[0])|..] == rest;
      EncodeThenDecode(cs[1..]);
    }
  }

  lemma {:induction false} DecodeThenEncode(s: seq<Byte>)
    requires ValidUtf8(s)
    ensures Utf8(Decode(s)) == s && NoZero(Decode(s))
    decreases |s|
  {
    if s != [] {
      var n := FirstLength(s);
      DecodeThenEncode(s[n..]);
      assert s == s[..n] + s[n..];
      assert Decode(s)[1..] == Decode(s[n..]);
    }
  }

  /** The validator accepts exactly the encodings of texts without a zero character. */
  lemma ValidIsEncoded(s: seq<Byte>)
    ensures ValidUtf8(s) <==> exists cs :: NoZero(cs) && Utf8(cs) == s
  {
    if ValidUtf8(s) {
      DecodeThenEncode(s);
    }
    forall cs | NoZero(cs) && Utf8(cs) == s ensures ValidUtf8(s) {
      EncodeThenDecode(cs);
    }
  }

  /** The bit masks of the program are these ranges. */
  lemma MasksAreRanges(b: bv8)
    ensures (b & 0xE0) == 0xC0 <==> 0xC0 <= b <= 0xDF
    ensures (b & 0xF0) == 0xE0 <==> 0xE0 <= b <= 0xEF
    ensures (b & 0xF8) == 0xF0 <==> 0xF0 <= b <= 0xF7
    ensures (b & 0xC0) == 0x80 <==> 0x80 <= b <= 0xBF
  {
  }

  // ----- One step of the conversion, on any bytes -----

  /** How many bytes the lead byte announces, if that many are left. */
  function Announced(s: seq<Byte>): (n: nat)
    requires s != []
    ensures 1 <= n <= 4 && n <= |s|
  {
    if s[0] / 32 == 6 && |s| > 1 then 2
    else if s[0] / 16 == 14 && |s| > 2 then 3
    else if s[0] / 8 == 30 && |s| > 3 then 4
    else 1
  }

  function LeadBits(s: seq<Byte>): nat
    requires s != []
  {
    match Announced(s)
    case 1 => s[0]
    case 2 => s[0] % 32
    case 3 => s[0] % 16
    case _ => s[0] % 8
  }

  /** The bits taken from continuation bytes i up to n, and whether all of them are such. */
  function Continued(s: seq<Byte>, i: nat, n: nat, codepoint: nat): (bool, nat)
    requires 1 <= i <= n <= |s|
    decreases n - i
  {
    if i == n then (true, codepoint)
    else if !Continuation(s[i]) then (false, codepoint)
    else Continued(s, i + 1, n, codepoint * 64 + s[i] % 64)
  }

  /** The bytes and UTF-16 units of the character that the rest of a text starts with. */
  function Step(s: seq<Byte>): (r: (nat, nat))
    requires s != []
    ensures 1 <= r.0 <= |s| && 1 <= r.1 <= 2
  {
    var (valid, codepoint) := Continued(s, 1, Announced(s), LeadBits(s));
    (if valid then Announced(s) else 1, if codepoint > 0xFFFF then 2 else 1)
  }

  /** The loop over the continuation bytes. */
  method ReadContinuation(text: seq<Byte>, byte: nat, sequence: nat, lead: nat) returns (valid: bool, codepoint: nat)
    requires 1 <= sequence <= 4 && byte + sequence <= |text|
    ensures (valid, codepoint) == Continued(text[byte..], 1, sequence, lead)
  {
    ghost var s := text[byte..];
    valid, codepoint := true, lead;
    var i := 1;
    while i < sequence
      invariant 1 <= i <= sequence && valid
      invariant Continued(s, i, sequence, codepoint) == Continued(s, 1, sequence, lead)
    {
      var continuation := text[byte + i];
      assert continuation == s[i];
      if !Continuation(continuation) {
        valid := false;
        break;
      }
      codepoint := codepoint * 64 + continuation % 64;
      i := i + 1;
    }
  }

  method ReadCharacter(text: seq<Byte>, byte: nat) returns (sequence: nat, charUnits: nat)
    requires byte < |text|
    ensures (sequence, charUnits) == Step(text[byte..])
  {
    var first := text[byte];
    assert first == text[byte..][0];
    sequence := 1;
    var codepoint: nat := first;
    if first / 32 == 6 && byte + 1 < |text| {
      sequence, codepoint := 2, first % 32;
    } else if first / 16 == 14 && byte + 2 < |text| {
      sequence, codepoint := 3, first % 16;
    } else if first / 8 == 30 && byte + 3 < |text| {
      sequence, codepoint := 4, first % 8;
    }
    var valid;
    valid, codepoint := ReadContinuation(text, byte, sequence, codepoint);
    if !valid {
      sequence := 1;
    }
    charUnits := if codepoint > 0xFFFF then 2 else 1;
  }

  /** The byte that a number of units leads to in the rest of a text. */
  function Position(s: seq<Byte>, units: nat): (byte: nat)
    ensures byte <= |s|
    decreases |s|
  {
    if s == [] || units == 0 then 0
    else
      var (sequence, charUnits) := Step(s);
      if charUnits > units then 0 else sequence + Position(s[sequence..], units - charUnits)
  }

  method Utf16PositionToUtf8Byte(text: seq<Byte>, units: nat) returns (byte: nat)
    ensures byte == Position(text, units)
  {
    byte := 0;
    var consumed := 0;
    while byte < |text| && consumed < units
      invariant byte <= |text| && consumed <= units
      invariant byte + Position(text[byte..], units - consumed) == Position(text, units)
      decreases |text| - byte
    {
      var sequence, charUnits := ReadCharacter(text, byte);
      assert text[byte..][sequence..] == text[byte + sequence..];
      if consumed + charUnits > units {
        break;
      }
      consumed := consumed + charUnits;
      byte := byte + sequence;
    }
  }

  /** The lead byte alone decides here, whether or not so many bytes are left. */
  function LeadLength(b: Byte): nat
  {
    if b / 32 == 6 then 2 else if b / 16 == 14 then 3 else if b / 8 == 30 then 4 else 1
  }

  function LengthInUnits(s: seq<Byte>): nat
    decreases |s|
  {
    if s == [] then 0
    else
      var n := LeadLength(s[0]);
      (if n == 4 then 2 else 1) + if n <= |s| then LengthInUnits(s[n..]) else 0
  }

  method Utf16Length(value: seq<Byte>) returns (units: nat)
    ensures units == LengthInUnits(value)
  {
    units := 0;
    var offset := 0;
    while offset < |value|
      invariant units + (if offset <= |value| then LengthInUnits(value[offset..]) else 0) == LengthInUnits(value)
      decreases |value| - offset
    {
      var first := value[offset];
      var sequence := 1;
      if first / 32 == 6 {
        sequence := 2;
      } else if first / 16 == 14 {
        sequence := 3;
      } else if first / 8 == 30 {
        sequence := 4;
      }
      if offset + sequence <= |value| {
        assert value[offset..][sequence..] == value[offset + sequence..];
      }
      units := units + if sequence == 4 then 2 else 1;
      offset := offset + sequence;
    }
  }

  // ----- On every text -----

  predicate Follows(s: seq<Byte>, i: nat) { i < |s| && 0x80 <= s[i] <= 0xBF }

  /**
   On any bytes: a character takes two, three or four bytes exactly if its lead byte says so and so many
   continuation bytes are there, else one; it counts for two units exactly if it takes four bytes and
   lies beyond the first plane.
   */
  lemma StepOnAnyBytes(s: seq<Byte>)
    requires s != []
    ensures Step(s).0 == 2 <==> 0xC0 <= s[0] <= 0xDF && Follows(s, 1)
    ensures Step(s).0 == 3 <==> 0xE0 <= s[0] <= 0xEF && Follows(s, 1) && Follows(s, 2)
    ensures Step(s).0 == 4 <==> 0xF0 <= s[0] <= 0xF7 && Follows(s, 1) && Follows(s, 2) && Follows(s, 3)
    ensures Step(s).1 == 2 <==> Step(s).0 == 4 && (s[0] > 0xF0 || s[1] >= 0x90)
  {
    var n, lead := Announced(s), LeadBits(s);
    if n == 2 {
      ContinuedOnce(s, 1, 2, lead);
    } else if n == 3 {
      ContinuedOnce(s, 1, 3, lead);
      ContinuedOnce(s, 2, 3, lead * 64 + s[1] % 64);
    } else if n == 4 {
      ContinuedOnce(s, 1, 4, lead);
      ContinuedOnce(s, 2, 4, lead * 64 + s[1] % 64);
      ContinuedOnce(s, 3, 4, (lead * 64 + s[1] % 64) * 64 + s[2] % 64);
    }
    hide Continued;
  }

  /** The length goes by lead bytes alone, and by what they announce even at the end of the text. */
  lemma LengthOnAnyBytes(s: seq<Byte>)
    requires s != []
    ensures
      var n := if 0xC0 <= s[0] <= 0xDF then 2 else if 0xE0 <= s[0] <= 0xEF then 3 else if 0xF0 <= s[0] <= 0xF7 then 4 else 1;
      LengthInUnits(s) == (if n == 4 then 2 else 1) + if n <= |s| then LengthInUnits(s[n..]) else 0
  {
  }

  lemma ContinuedOnce(s: seq<Byte>, i: nat, n: nat, codepoint: nat)
    requires 1 <= i < n <= |s|
    ensures Continued(s, i, n, codepoint)
            == if 0x80 <= s[i] <= 0xBF then Continued(s, i + 1, n, codepoint * 64 + s[i] % 64) else (false, codepoint)
    ensures i + 1 == n && 0x80 <= s[i] <= 0xBF ==>
              Continued(s, i, n, codepoint) == (true, codepoint * 64 + s[i] % 64)
  {
  }

  /** More units never lead to an earlier byte, on any bytes at all. */
  lemma {:induction false} PositionIsMonotone(s: seq<Byte>, units: nat, more: nat)
    requires units <= more
    ensures Position(s, units) <= Position(s, more)
    decreases |s|
  {
    if s != [] && units > 0 && Step(s).1 <= units {
      PositionIsMonotone(s[Step(s).0..], units - Step(s).1, more - Step(s).1);
    }
  }

  // ----- On valid text -----

  /** On the encoding of a code point one step is that code point. */
  lemma StepOnEncoding(c: Scalar, rest: seq<Byte>)
    ensures Step(Utf8One(c) + rest) == (|Utf8One(c)|, |Utf16One(c)|)
    ensures LeadLength((Utf8One(c) + rest)[0]) == |Utf8One(c)|
  {
    var s := Utf8One(c) + rest;
    var n := |Utf8One(c)|;
    Digits(c);
    assert s[0] == Utf8One(c)[0];
    assert n > 1 ==> s[1] == Utf8One(c)[1];
    assert n > 2 ==> s[2] == Utf8One(c)[2];
    assert n > 3 ==> s[3] == Utf8One(c)[3];
    BitsOfEncoding(c, s);
  }

  lemma BitsOfEncoding(c: Scalar, s: seq<Byte>)
    requires |s| >= |Utf8One(c)|
    requires forall i :: 0 <= i < |Utf8One(c)| ==> s[i] == Utf8One(c)[i]
    ensures Announced(s) == LeadLength(s[0]) == |Utf8One(c)|
    ensures Continued(s, 1, Announced(s), LeadBits(s)) == (true, c)
  {
    var n := |Utf8One(c)|;
    Digits(c);
    if n == 1 {
    } else if n == 2 {
      LastBits(s, 1, 2, c / 64, c);
    } else if n == 3 {
      LastBits(s, 2, 3, c / 64, c);
      MoreBits(s, 1, 3, c / 4096, c / 64);
    } else {
      LastBits(s, 3, 4, c / 64, c);
      MoreBits(s, 2, 4, c / 4096, c / 64);
      MoreBits(s, 1, 4, c / 262144, c / 4096);
    }
  }

  lemma LastBits(s: seq<Byte>, i: nat, n: nat, high: nat, c: nat)
    requires 1 <= i < |s| && n == i + 1 && Continuation(s[i]) && c == high * 64 + s[i] % 64
    ensures Continued(s, i, n, high) == (true, c)
  {
  }

  lemma MoreBits(s: seq<Byte>, i: nat, n: nat, high: nat, next: nat)
    requires 1 <= i < n <= |s| && Continuation(s[i]) && next == high * 64 + s[i] % 64
    ensures Continued(s, i, n, high) == Continued(s, i + 1, n, next)
  {
  }

  lemma {:induction false} LengthOnEncoding(cs: seq<Scalar>)
    ensures LengthInUnits(Utf8(cs)) == |Utf16(cs)|
  {
    if cs != [] {
      var rest := Utf8(cs[1..]);
      StepOnEncoding(cs[0], rest);
      assert (Utf8One(cs[0]) + rest)[|Utf8One(cs[0])|..] == rest;
      LengthOnEncoding(cs[1..]);
    }
  }

  /** k code points are as many as fit in so many units. */
  ghost predicate Fits(cs: seq<Scalar>, units: nat, k: nat)
  {
    k <= |cs| && |Utf16(cs[..k])| <= units && (k < |cs| ==> |Utf16(cs[..k + 1])| > units)
  }

  lemma TakeOne(cs: seq<Scalar>, k: nat)
    requires k < |cs|
    ensures Utf8(cs[..k + 1]) == Utf8One(cs[0]) + Utf8(cs[1..][..k])
    ensures Utf16(cs[..k + 1]) == Utf16One(cs[0]) + Utf16(cs[1..][..k])
  {
    assert cs[..k + 1][1..] == cs[1..][..k];
  }

  lemma {:induction false} PositionOnEncoding(cs: seq<Scalar>, units: nat) returns (k: nat)
    ensures Fits(cs, units, k) && Position(Utf8(cs), units) == |Utf8(cs[..k])|
  {
    if cs == [] {
      return 0;
    }
    var rest := Utf8(cs[1..]);
    StepOnEncoding(cs[0], rest);
    assert (Utf8One(cs[0]) + rest)[|Utf8One(cs[0])|..] == rest;
    TakeOne(cs, 0);
    if units == 0 || |Utf16One(cs[0])| > units {
      k := 0;
    } else {
      var j := PositionOnEncoding(cs[1..], units - |Utf16One(cs[0])|);
      k := j + 1;
      TakeOne(cs, j);
      if j + 1 < |cs| {
        TakeOne(cs, j + 1);
      }
    }
  }

  lemma {:induction false} Utf16Concat(a: seq<Scalar>, b: seq<Scalar>)
    ensures Utf16(a + b) == Utf16(a) + Utf16(b)
  {
    if a == [] {
      assert a + b == b;
    } else {
      var rest := a[1..] + b;
      Utf16Concat(a[1..], b);
      assert (a + b)[0] == a[0] && (a + b)[1..] == rest;
      hide Utf16One;
      Regroup(Utf16One(a[0]), Utf16(a[1..]), Utf16(b));
    }
  }

  lemma {:induction false} Utf8Concat(a: seq<Scalar>, b: seq<Scalar>)
    ensures Utf8(a + b) == Utf8(a) + Utf8(b)
  {
    if a == [] {
      assert a + b == b;
    } else {
      var rest := a[1..] + b;
      Utf8Concat(a[1..], b);
      assert (a + b)[0] == a[0] && (a + b)[1..] == rest;
      hide Utf8One;
      Regroup(Utf8One(a[0]), Utf8(a[1..]), Utf8(b));
    }
  }

  /**
   On valid text the position is a boundary between code points, and the last one whose prefix
   has no more units than asked for.
   */
  lemma PositionIsTheLargestBoundary(text: seq<Byte>, units: nat) returns (k: nat)
    requires ValidUtf8(text)
    ensures
      var cs := Decode(text);
      && k <= |cs| && text[..Position(text, units)] == Utf8(cs[..k])
      && |Utf16(cs[..k])| <= units
      && forall j :: k < j <= |cs| ==> |Utf16(cs[..j])| > units
  {
    var cs := Decode(text);
    DecodeThenEncode(text);
    k := PositionOnEncoding(cs, units);
    SplitAt(cs, k);
    forall j | k < j <= |cs| ensures |Utf16(cs[..j])| > units {
      PrefixGrows(cs, k + 1, j);
    }
  }

  lemma SplitAt(cs: seq<Scalar>, k: nat)
    requires k <= |cs|
    ensures Utf8(cs) == Utf8(cs[..k]) + Utf8(cs[k..])
    ensures Utf16(cs) == Utf16(cs[..k]) + Utf16(cs[k..])
  {
    assert cs == cs[..k] + cs[k..];
    Utf8Concat(cs[..k], cs[k..]);
    Utf16Concat(cs[..k], cs[k..]);
  }

  lemma PrefixGrows(cs: seq<Scalar>, i: nat, j: nat)
    requires i <= j <= |cs|
    ensures |Utf16(cs[..i])| <= |Utf16(cs[..j])|
  {
    SplitAt(cs[..j], i);
    assert cs[..j][..i] == cs[..i];
  }

  lemma {:induction false} NothingIsEmpty(cs: seq<Scalar>)
    ensures |cs| <= |Utf16(cs)|
  {
    if cs != [] {
      NothingIsEmpty(cs[1..]);
    }
  }

  /** The length in units is the UTF-16 length, and it leads to the end of the text. */
  lemma LengthLeadsToTheEnd(text: seq<Byte>)
    requires ValidUtf8(text)
    ensures LengthInUnits(text) == |Utf16(Decode(text))|
    ensures Position(text, LengthInUnits(text)) == |text|
  {
    var cs := Decode(text);
    DecodeThenEncode(text);
    LengthOnEncoding(cs);
    var k := PositionOnEncoding(cs, |Utf16(cs)|);
    AllFit(cs, k);
  }

  lemma AllFit(cs: seq<Scalar>, k: nat)
    requires Fits(cs, |Utf16(cs)|, k)
    ensures cs[..k] == cs
  {
    assert cs[..|cs|] == cs;
    if k < |cs| {
      PrefixGrows(cs, k + 1, |cs|);
      assert false;
    }
  }

  // ----- Entities -----

  const MAX_ENTITIES: nat := 512
  const MAX_METADATA_BYTES: nat := 32 * 1024

  datatype EntityType = Bold | Italic | Underline | Strikethrough | Code | Pre | TextLink | CustomEmoji | Unknown

  datatype Entity = Entity(kind: EntityType, offset: nat, length: nat, url: seq<Byte>, customEmojiId: seq<Byte>)

  datatype Verdict = Fine | LimitExceeded | InvalidRequest

  predicate Inside(e: Entity, textUnits: nat)
  {
    e.offset <= textUnits && e.length > 0 && e.length <= textUnits - e.offset
  }

  /** What an entity must be like, its metadata apart. */
  predicate WellShaped(e: Entity, textUnits: nat)
  {
    && Inside(e, textUnits) && !e.kind.Unknown?
    && (e.kind.TextLink? ==> e.url != []) && (e.kind.CustomEmoji? ==> e.customEmojiId != [])
  }

  /** An entity that passes, apart from the limit on metadata bytes. */
  predicate Acceptable(e: Entity, textUnits: nat)
  {
    WellShaped(e, textUnits) && ValidUtf8(e.url) && ValidUtf8(e.customEmojiId)
  }

  /** The first i entities pass. */
  ghost predicate PassUpTo(entities: seq<Entity>, i: nat, textUnits: nat, metadataBytes: nat)
    requires i <= |entities|
  {
    && (forall j :: 0 <= j < i ==> Acceptable(entities[j], textUnits))
    && Within(metadataBytes, MetadataBytes(entities[..i]), MAX_METADATA_BYTES)
  }

  /** All entities before this one pass. */
  ghost predicate FirstDoubt(entities: seq<Entity>, i: nat, textUnits: nat, metadataBytes: nat)
  {
    i < |entities| && PassUpTo(entities, i, textUnits, metadataBytes)
  }

  /** The metadata of this entity is text and leaves the sum within its limit. */
  predicate MetadataPasses(entities: seq<Entity>, i: nat, metadataBytes: nat)
    requires i < |entities|
  {
    && ValidUtf8(entities[i].url) && ValidUtf8(entities[i].customEmojiId)
    && Within(metadataBytes, MetadataBytes(entities[..i + 1]), MAX_METADATA_BYTES)
  }

  function MetadataBytes(entities: seq<Entity>): nat
  {
    if entities == [] then 0
    else MetadataBytes(entities[..|entities| - 1]) + |entities[|entities| - 1].url| + |entities[|entities| - 1].customEmojiId|
  }

  /** Within a running limit: what is added fits, or nothing is added. */
  predicate Within(used: nat, more: nat, limit: nat)
  {
    more == 0 || used + more <= limit
  }

  method AddMetadata(value: seq<Byte>, metadataBytes: nat) returns (ok: bool, metadataBytes': nat)
    ensures ok <==> ValidUtf8(value) && Within(metadataBytes, |value|, MAX_METADATA_BYTES)
    ensures metadataBytes' == metadataBytes + if ok then |value| else 0
  {
    var used := if metadataBytes < MAX_METADATA_BYTES then metadataBytes else MAX_METADATA_BYTES;
    if !ValidUtf8(value) || |value| > MAX_METADATA_BYTES - used {
      return false, metadataBytes;
    }
    return true, metadataBytes + |value|;
  }

  /** The entities of one text, against counters that run over a whole request. */
  method ValidateEntities(text: seq<Byte>, entities: seq<Entity>, entityCount: nat, metadataBytes: nat)
    returns (v: Verdict, entityCount': nat, metadataBytes': nat)
    ensures entityCount <= MAX_ENTITIES ==> entityCount' <= MAX_ENTITIES
    ensures metadataBytes <= MAX_METADATA_BYTES ==> metadataBytes' <= MAX_METADATA_BYTES
    ensures v == Fine <==>
            && Within(entityCount, |entities|, MAX_ENTITIES)
            && (forall e :: e in entities ==> Acceptable(e, LengthInUnits(text)))
            && Within(metadataBytes, MetadataBytes(entities), MAX_METADATA_BYTES)
    ensures v == InvalidRequest ==>
              && Within(entityCount, |entities|, MAX_ENTITIES)
              && exists i: nat :: FirstDoubt(entities, i, LengthInUnits(text), metadataBytes)
                                  && !WellShaped(entities[i], LengthInUnits(text))
    ensures v == LimitExceeded && Within(entityCount, |entities|, MAX_ENTITIES) ==>
              exists i: nat :: FirstDoubt(entities, i, LengthInUnits(text), metadataBytes)
                               && WellShaped(entities[i], LengthInUnits(text))
                               && !MetadataPasses(entities, i, metadataBytes)
    ensures v == Fine ==> entityCount' == entityCount + |entities|
                          && metadataBytes' == metadataBytes + MetadataBytes(entities)
  {
    entityCount', metadataBytes' := entityCount, metadataBytes;
    var counted := if entityCount < MAX_ENTITIES then entityCount else MAX_ENTITIES;
    if |entities| > MAX_ENTITIES - counted {
      return LimitExceeded, entityCount', metadataBytes';
    }
    entityCount' := entityCount + |entities|;
    var textUnits := Utf16Length(text);
    assert PassUpTo(entities, 0, textUnits, metadataBytes);
    AllPass(entities, textUnits, metadataBytes);
    hide PassUpTo, Acceptable, WellShaped, MetadataPasses;
    for i := 0 to |entities|
      invariant metadataBytes' == metadataBytes + MetadataBytes(entities[..i])
      invariant metadataBytes <= MAX_METADATA_BYTES ==> metadataBytes' <= MAX_METADATA_BYTES
      invariant PassUpTo(entities, i, textUnits, metadataBytes)
    {
      OneMorePasses(entities, i, textUnits, metadataBytes);
      PassPrefix(entities, i + 1, textUnits, metadataBytes);
      assert FirstDoubt(entities, i, textUnits, metadataBytes);
      var verdict;
      verdict, metadataBytes' := ValidateEntity(entities[i], textUnits, metadataBytes');
      if verdict != Fine {
        return verdict, entityCount', metadataBytes';
      }
    }
    assert entities[..|entities|] == entities;
    return Fine, entityCount', metadataBytes';
  }

  /** The body of the loop. */
  method ValidateEntity(e: Entity, textUnits: nat, metadataBytes: nat) returns (v: Verdict, metadataBytes': nat)
    ensures v == InvalidRequest <==> !WellShaped(e, textUnits)
    ensures v == Fine <==> Acceptable(e, textUnits) && Within(metadataBytes, |e.url| + |e.customEmojiId|, MAX_METADATA_BYTES)
    ensures v == Fine ==> metadataBytes' == metadataBytes + |e.url| + |e.customEmojiId|
    ensures metadataBytes <= MAX_METADATA_BYTES ==> metadataBytes' <= MAX_METADATA_BYTES
  {
    metadataBytes' := metadataBytes;
    if e.offset > textUnits || e.length == 0 || e.length > textUnits - e.offset {
      return InvalidRequest, metadataBytes';
    }
    if (e.kind.TextLink? && e.url == []) || (e.kind.CustomEmoji? && e.customEmojiId == []) || e.kind.Unknown? {
      return InvalidRequest, metadataBytes';
    }
    var ok;
    ok, metadataBytes' := AddMetadata(e.url, metadataBytes');
    if !ok {
      return LimitExceeded, metadataBytes';
    }
    ok, metadataBytes' := AddMetadata(e.customEmojiId, metadataBytes');
    if !ok {
      return LimitExceeded, metadataBytes';
    }
    return Fine, metadataBytes';
  }

  lemma OneMorePasses(entities: seq<Entity>, i: nat, textUnits: nat, metadataBytes: nat)
    requires i < |entities| && PassUpTo(entities, i, textUnits, metadataBytes)
    ensures
      var e, before := entities[i], MetadataBytes(entities[..i]);
      && MetadataBytes(entities[..i + 1]) == before + |e.url| + |e.customEmojiId|
      && (PassUpTo(entities, i + 1, textUnits, metadataBytes) <==>
            Acceptable(e, textUnits) && Within(metadataBytes + before, |e.url| + |e.customEmojiId|, MAX_METADATA_BYTES))
      && (Acceptable(e, textUnits) <==> WellShaped(e, textUnits) && ValidUtf8(e.url) && ValidUtf8(e.customEmojiId))
      && (MetadataPasses(entities, i, metadataBytes) <==>
            && ValidUtf8(e.url) && ValidUtf8(e.customEmojiId)
            && Within(metadataBytes + before, |e.url| + |e.customEmojiId|, MAX_METADATA_BYTES))
  {
    assert entities[..i + 1][..i] == entities[..i];
  }

  lemma PassPrefix(entities: seq<Entity>, i: nat, textUnits: nat, metadataBytes: nat)
    requires i <= |entities|
    ensures PassUpTo(entities, |entities|, textUnits, metadataBytes) ==> PassUpTo(entities, i, textUnits, metadataBytes)
  {
    MetadataOfMore(entities, i);
    assert entities[..|entities|] == entities;
  }

  lemma AllPass(entities: seq<Entity>, textUnits: nat, metadataBytes: nat)
    ensures PassUpTo(entities, |entities|, textUnits, metadataBytes) <==>
            && (forall e :: e in entities ==> Acceptable(e, textUnits))
            && Within(metadataBytes, MetadataBytes(entities), MAX_METADATA_BYTES)
  {
    assert entities[..|entities|] == entities;
  }

  lemma {:induction false} MetadataOfMore(entities: seq<Entity>, i: nat)
    requires i <= |entities|
    ensures MetadataBytes(entities[..i]) <= MetadataBytes(entities)
    decreases |entities|
  {
    if i < |entities| {
      var short := entities[..|entities| - 1];
      assert short[..i] == entities[..i];
      MetadataOfMore(short, i);
    } else {
      assert entities[..i] == entities;
    }
  }

  /** Every entity that passes gives an ordered range of bytes of its text. */
  lemma AcceptedRangesAreOrdered(text: seq<Byte>, e: Entity)
    requires Inside(e, LengthInUnits(text))
    ensures Position(text, e.offset) <= Position(text, e.offset + e.length) <= |text|
  {
    PositionIsMonotone(text, e.offset, e.offset + e.length);
  }

  /** Some prefix of whole code points has exactly so many units: the offset splits no surrogate pair. */
  ghost predicate OnBoundary(cs: seq<Scalar>, units: nat)
  {
    exists k :: 0 <= k <= |cs| && |Utf16(cs[..k])| == units
  }

  lemma ExactPosition(text: seq<Byte>, units: nat) returns (k: nat)
    requires ValidUtf8(text) && OnBoundary(Decode(text), units)
    ensures
      var cs := Decode(text);
      k <= |cs| && text[..Position(text, units)] == Utf8(cs[..k]) && |Utf16(cs[..k])| == units
  {
    var cs := Decode(text);
    k := PositionIsTheLargestBoundary(text, units);
    var j :| 0 <= j <= |cs| && |Utf16(cs[..j])| == units;
    PrefixGrows(cs, j, k);
  }

  /** An entity whose ends split no surrogate pair selects the same code points as bytes and as units. */
  lemma WholePairsSelectOneText(text: seq<Byte>, e: Entity) returns (part: seq<Scalar>)
    requires ValidUtf8(text) && Inside(e, LengthInUnits(text))
    requires OnBoundary(Decode(text), e.offset) && OnBoundary(Decode(text), e.offset + e.length)
    ensures
      var start, end := Position(text, e.offset), Position(text, e.offset + e.length);
      start < end <= |text| && text[start..end] == Utf8(part)
    ensures e.offset + e.length <= |Utf16(Decode(text))|
            && Utf16(Decode(text))[e.offset..e.offset + e.length] == Utf16(part)
  {
    var cs := Decode(text);
    var start, end := Position(text, e.offset), Position(text, e.offset + e.length);
    LengthLeadsToTheEnd(text);
    AcceptedRangesAreOrdered(text, e);
    var i := ExactPosition(text, e.offset);
    var j := ExactPosition(text, e.offset + e.length);
    if j <= i {
      PrefixGrows(cs, j, i);
      assert false;
    }
    part := cs[i..j];
    SameSlices(cs, i, j, text, start, end);
  }

  predicate HighSurrogate(u: Unit) { 0xD800 <= u < 0xDC00 }

  predicate LowSurrogate(u: Unit) { 0xDC00 <= u < 0xE000 }

  /** An offset splits a pair exactly if a low surrogate comes next, and exactly if a high one came last. */
  lemma {:induction false} BoundaryByUnits(cs: seq<Scalar>, units: nat)
    requires units <= |Utf16(cs)|
    ensures OnBoundary(cs, units) <==> units == |Utf16(cs)| || !LowSurrogate(Utf16(cs)[units])
    ensures OnBoundary(cs, units) <==> units == 0 || !HighSurrogate(Utf16(cs)[units - 1])
  {
    if units == 0 {
      assert |Utf16(cs[..0])| == 0;
    } else {
      var first := Utf16One(cs[0]);
      forall k | 0 < k <= |cs| ensures |Utf16(cs[..k])| == |first| + |Utf16(cs[1..][..k - 1])| {
        TakeOne(cs, k - 1);
      }
      assert |Utf16(cs[..0])| == 0;
      if units >= |first| {
        BoundaryByUnits(cs[1..], units - |first|);
        BoundaryAfterFirst(cs, units);
      }
    }
  }

  lemma BoundaryAfterFirst(cs: seq<Scalar>, units: nat)
    requires cs != [] && units >= |Utf16One(cs[0])|
    ensures OnBoundary(cs, units) <==> OnBoundary(cs[1..], units - |Utf16One(cs[0])|)
  {
    var w := |Utf16One(cs[0])|;
    if k :| 0 <= k <= |cs| && |Utf16(cs[..k])| == units {
      assert |Utf16(cs[..0])| == 0;
      TakeOne(cs, k - 1);
      assert |Utf16(cs[1..][..k - 1])| == units - w;
    }
    if k :| 0 <= k <= |cs[1..]| && |Utf16(cs[1..][..k])| == units - w {
      TakeOne(cs, k);
      assert |Utf16(cs[..k + 1])| == units;
    }
  }

  /** Bytes and units that encode one and the same text. */
  ghost predicate SameText(bytes: seq<Byte>, units: seq<Unit>)
  {
    exists part: seq<Scalar> :: bytes == Utf8(part) && units == Utf16(part)
  }

  /**
   An entity selects, as bytes, exactly the text that it selects as UTF-16 units if and only if neither
   of its ends splits a surrogate pair; otherwise its units are no text at all.
   */
  lemma RangeSelectsTheSameText(text: seq<Byte>, e: Entity)
    requires ValidUtf8(text) && Inside(e, LengthInUnits(text))
    ensures Position(text, e.offset) <= Position(text, e.offset + e.length) <= |text|
    ensures e.offset + e.length <= |Utf16(Decode(text))|
    ensures
      var bytes := text[Position(text, e.offset)..Position(text, e.offset + e.length)];
      var units := Utf16(Decode(text))[e.offset..e.offset + e.length];
      SameText(bytes, units) <==> OnBoundary(Decode(text), e.offset) && OnBoundary(Decode(text), e.offset + e.length)
  {
    var cs := Decode(text);
    LengthLeadsToTheEnd(text);
    AcceptedRangesAreOrdered(text, e);
    if OnBoundary(cs, e.offset) && OnBoundary(cs, e.offset + e.length) {
      var part := WholePairsSelectOneText(text, e);
    } else {
      forall part: seq<Scalar> ensures Utf16(cs)[e.offset..e.offset + e.length] != Utf16(part) {
        SplitPairIsNoText(cs, e.offset, e.offset + e.length, part);
      }
    }
  }

  /** The units of a text start with no low surrogate and end in no high one. */
  lemma TextIsWhole(part: seq<Scalar>)
    requires part != []
    ensures Utf16(part) != [] && !LowSurrogate(Utf16(part)[0]) && !HighSurrogate(Utf16(part)[|Utf16(part)| - 1])
  {
    NothingIsEmpty(part);
    assert |Utf16(part[..0])| == 0 && part[..|part|] == part;
    assert OnBoundary(part, 0) && OnBoundary(part, |Utf16(part)|);
    BoundaryByUnits(part, 0);
    BoundaryByUnits(part, |Utf16(part)|);
  }

  lemma SplitPairIsNoText(cs: seq<Scalar>, start: nat, end: nat, part: seq<Scalar>)
    requires start < end <= |Utf16(cs)| && !(OnBoundary(cs, start) && OnBoundary(cs, end))
    ensures Utf16(cs)[start..end] != Utf16(part)
  {
    var units := Utf16(cs)[start..end];
    BoundaryByUnits(cs, start);
    BoundaryByUnits(cs, end);
    assert LowSurrogate(units[0]) || HighSurrogate(units[|units| - 1]);
    if part != [] {
      TextIsWhole(part);
    }
  }

  lemma SameSlices(cs: seq<Scalar>, i: nat, j: nat, text: seq<Byte>, start: nat, end: nat)
    requires i < j <= |cs| && start <= end <= |text|
    requires text[..start] == Utf8(cs[..i]) && text[..end] == Utf8(cs[..j])
    ensures start < end && text[start..end] == Utf8(cs[i..j])
    ensures
      var from, to := |Utf16(cs[..i])|, |Utf16(cs[..j])|;
      from <= to <= |Utf16(cs)| && Utf16(cs)[from..to] == Utf16(cs[i..j])
  {
    Middle(cs, i, j);
    NothingIsEmpty8(cs[i..j]);
    Slice(text, start, end, Utf8(cs[..i]), Utf8(cs[i..j]));
    SplitAt(cs, j);
    Slice(Utf16(cs), |Utf16(cs[..i])|, |Utf16(cs[..j])|, Utf16(cs[..i]), Utf16(cs[i..j]));
  }

  lemma Middle(cs: seq<Scalar>, i: nat, j: nat)
    requires i <= j <= |cs|
    ensures Utf8(cs[..j]) == Utf8(cs[..i]) + Utf8(cs[i..j])
    ensures Utf16(cs[..j]) == Utf16(cs[..i]) + Utf16(cs[i..j])
  {
    var front := cs[..j];
    assert front[..i] == cs[..i] && front[i..] == cs[i..j];
    SplitAt(front, i);
  }

  lemma Slice<T>(text: seq<T>, start: nat, end: nat, before: seq<T>, part: seq<T>)
    requires start <= end <= |text| && |before| == start && text[..end] == before + part
    ensures text[start..end] == part
  {
    assert text[start..end] == text[..end][start..];
  }

  lemma {:induction false} NothingIsEmpty8(cs: seq<Scalar>)
    ensures |cs| <= |Utf8(cs)|
  {
    if cs != [] {
      NothingIsEmpty8(cs[1..]);
    }
  }
}
