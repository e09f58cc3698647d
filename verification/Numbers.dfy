// Printing numbers (lib.c itoa, strrev and printf's %x, %#x, %u and %d).
module Numbers {
  import opened Bytes
  import opened Machine
  import opened Strings

  const TWO_31 := 0x8000_0000
  const ZERO: Byte := 48
  const MINUS: Byte := 45

  // The lookup string: 0-9, then A-Z.
  function Digit(i: nat): (b: Byte)
    requires i < 36
    ensures b != NUL
  {
    if i < 10 then 48 + i else 55 + i
  }

  function DigitValue(b: Byte): nat {
    if 48 <= b <= 57 then b - 48 else if 65 <= b <= 90 then b - 55 else 0
  }

  predicate IsDigit(b: Byte, radix: nat) {
    exists i :: 0 <= i < radix && i < 36 && b == Digit(i)
  }

  // Quotient and remainder by the radix.
  function Quot(value: nat, radix: nat): (q: nat)
    requires radix >= 2
    ensures value > 0 ==> q < value
    ensures q == 0 <==> value < radix
  {
    DivisionFacts(value, radix);
    value / radix
  }

  function Rem(value: nat, radix: nat): (r: nat)
    requires radix >= 2
    ensures r < radix && value == Quot(value, radix) * radix + r
    ensures value < radix ==> r == value
  {
    DivisionFacts(value, radix);
    value % radix
  }

  lemma DivisionFacts(value: nat, radix: nat)
    requires radix >= 2
    ensures value == value / radix * radix + value % radix
    ensures value > 0 ==> value / radix < value
    ensures value / radix == 0 <==> value < radix
  {
    QuotientFacts(value, radix, value / radix, value % radix);
  }

  lemma QuotientFacts(value: nat, radix: nat, q: nat, r: nat)
    requires radix >= 2 && r < radix && value == q * radix + r
    ensures value > 0 ==> q < value
    ensures q == 0 <==> value < radix
  {
    if q > 0 {
      assert q * radix == radix + (q - 1) * radix;
      TimesAtLeastTwice(radix, q);
    }
  }

  // How a reader takes a numeral: most significant digit first.
  function Decode(s: seq<Byte>, radix: nat): nat {
    if s == [] then 0 else Decode(s[..|s| - 1], radix) * radix + DigitValue(s[|s| - 1])
  }

  function Numeral(value: nat, radix: nat): (s: seq<Byte>)
    requires 2 <= radix <= 36
    ensures s != []
    decreases value
  {
    if value < radix then [Digit(value)] else Numeral(Quot(value, radix), radix) + [Digit(Rem(value, radix))]
  }

  // Digits least significant first, as itoa's loop makes them.
  function Backwards(value: nat, radix: nat): (s: seq<Byte>)
    requires 2 <= radix <= 36
    decreases value
  {
    if value == 0 then [] else [Digit(Rem(value, radix))] + Backwards(Quot(value, radix), radix)
  }

  function Reversed(s: seq<Byte>): (r: seq<Byte>)
    ensures |r| == |s|
  {
    seq(|s|, i requires 0 <= i < |s| => s[|s| - 1 - i])
  }

  // ---------------------------------------------------------------------------------------
  // A numeral reads back as its value, in digits of the radix and without a leading zero.

  lemma {:induction false} RoundTrip(value: nat, radix: nat)
    requires 2 <= radix <= 36
    ensures
      var s := Numeral(value, radix);
      && Decode(s, radix) == value
      && (forall i :: 0 <= i < |s| ==> IsDigit(s[i], radix))
      && (s[0] == ZERO ==> value == 0 && s == [ZERO])
    decreases value
  {
    hide Quot, Rem, Digit;
    if value < radix {
      assert [Digit(value)][..0] == [];
      DigitReads(value, radix);
    } else {
      var rest, last := Numeral(Quot(value, radix), radix), Digit(Rem(value, radix));
      RoundTrip(Quot(value, radix), radix);
      DigitReads(Rem(value, radix), radix);
      assert (rest + [last])[..|rest|] == rest;
    }
  }

  lemma DigitReads(i: nat, radix: nat)
    requires i < radix <= 36
    ensures IsDigit(Digit(i), radix) && DigitValue(Digit(i)) == i && (Digit(i) == ZERO <==> i == 0)
  {
  }

  lemma {:induction false} BackwardsReversed(value: nat, radix: nat)
    requires 2 <= radix <= 36 && value > 0
    ensures Reversed(Backwards(value, radix)) == Numeral(value, radix)
    decreases value
  {
    hide Quot, Rem, Digit;
    var low, rest := Digit(Rem(value, radix)), Backwards(Quot(value, radix), radix);
    assert Reversed([low] + rest) == Reversed(rest) + [low];
    if value >= radix {
      BackwardsReversed(Quot(value, radix), radix);
    }
  }

  function Pow(radix: nat, k: nat): nat {
    if k == 0 then 1 else radix * Pow(radix, k - 1)
  }

  lemma {:induction false} LengthBound(value: nat, radix: nat, k: nat)
    requires 2 <= radix <= 36 && k >= 1 && value < Pow(radix, k)
    ensures |Numeral(value, radix)| <= k
    decreases k
  {
    hide Quot, Rem, Digit;
    assert Pow(radix, 1) == radix * Pow(radix, 0) == radix;
    if value >= radix {
      QuotientBound(value, radix, Pow(radix, k - 1));
      LengthBound(Quot(value, radix), radix, k - 1);
    }
  }

  lemma QuotientBound(value: nat, radix: nat, bound: nat)
    requires radix >= 2 && value < radix * bound
    ensures Quot(value, radix) < bound
  {
    hide Quot, Rem;
    var q, r := Quot(value, radix), Rem(value, radix);
    assert q >= bound ==> q * radix >= bound * radix;
  }

  // Every 32-bit number fits in 32 digits of any radix, in 10 of radix ten and 8 of sixteen.
  lemma WordLength(value: nat, radix: nat)
    requires 2 <= radix <= 36 && value < TWO_32
    ensures |Numeral(value, radix)| <= 32
    ensures radix == 10 ==> |Numeral(value, radix)| <= 10
    ensures radix == 16 ==> |Numeral(value, radix)| <= 8
  {
    PowGrows(radix, 32);
    assert Pow(2, 32) == TWO_32 by {
      assert Pow(2, 8) == 256 && Pow(2, 16) == 65536 && Pow(2, 24) == 0x100_0000;
    }
    LengthBound(value, radix, 32);
    if radix == 10 {
      assert Pow(10, 5) == 100000 && Pow(10, 10) == 10000000000;
      LengthBound(value, 10, 10);
    }
    if radix == 16 {
      assert Pow(16, 4) == 65536 && Pow(16, 8) == TWO_32;
      LengthBound(value, 16, 8);
    }
  }

  lemma {:induction false} PowGrows(radix: nat, k: nat)
    requires radix >= 2
    ensures Pow(radix, k) >= Pow(2, k)
  {
    if k > 0 {
      PowGrows(radix, k - 1);
      TimesAtLeastTwice(radix, Pow(radix, k - 1));
    }
  }

  lemma TimesAtLeastTwice(radix: nat, p: nat)
    requires radix >= 2
    ensures radix * p >= 2 * p
  {
    assert radix * p == 2 * p + (radix - 2) * p;
  }

  // ---------------------------------------------------------------------------------------
  // The routines on buffers.

  // strrev of the string at an index.
  method Strrev(buf: array<Byte>, at: nat)
    requires at <= buf.Length && NUL in buf[at..]
    modifies buf
    ensures
      var n := StrLen(old(buf[at..]));
      && at + n < buf.Length
      && buf[at..at + n] == Reversed(old(buf[at..at + n]))
      && buf[..at] == old(buf[..at]) && buf[at + n..] == old(buf[at + n..])
  {
    hide StrLen, Reversed, Swapped;
    ghost var was := buf[..];
    assert was[at..] == buf[at..];
    var n: int := Strlen(buf[at..]);
    NothingSwapped(was, at, n);
    var beg, end := 0, n - 1;
    while beg < end
      invariant 0 <= beg <= n && 2 * beg <= n + 1 && beg + end == n - 1
      invariant buf[..] == Swapped(was, at, n, beg)
    {
      SwapStep(was, at, n, beg);
      buf[at + end], buf[at + beg] := buf[at + beg], buf[at + end];
      beg := beg + 1;
      end := end - 1;
    }
    SwappedIsReversed(was, at, n, beg);
    assert buf[at..at + n] == buf[..][at..at + n] && buf[..at] == buf[..][..at] && buf[at + n..] == buf[..][at + n..];
  }

  // The text of n bytes at an index with its b outermost pairs exchanged.
  function Swapped(s: seq<Byte>, at: nat, n: nat, b: nat): (r: seq<Byte>)
    requires at + n <= |s|
    ensures |r| == |s|
  {
    seq(|s|, i requires 0 <= i < |s| =>
      if at <= i < at + n && (i < at + b || i >= at + n - b) then s[2 * at + n - 1 - i] else s[i])
  }

  lemma NothingSwapped(s: seq<Byte>, at: nat, n: nat)
    requires at + n <= |s|
    ensures Swapped(s, at, n, 0) == s
  {
  }

  lemma SwapStep(s: seq<Byte>, at: nat, n: nat, b: nat)
    requires at + n <= |s| && 2 * b < n - 1
    ensures
      var r: seq<Byte> := Swapped(s, at, n, b);
      var lo, hi := at + b, at + n - 1 - b;
      Swapped(s, at, n, b + 1) == r[hi := r[lo]][lo := r[hi]]
  {
  }

  lemma SwappedIsReversed(s: seq<Byte>, at: nat, n: nat, b: nat)
    requires at + n <= |s| && n - 1 <= 2 * b <= n + 1
    ensures
      var r := Swapped(s, at, n, b);
      r[at..at + n] == Reversed(s[at..at + n]) && r[..at] == s[..at] && r[at + n..] == s[at + n..]
  {
  }

  method Itoa(value: nat, buf: array<Byte>, at: nat, radix: nat)
    requires value < TWO_32 && 2 <= radix <= 36 && at + |Numeral(value, radix)| < buf.Length
    modifies buf
    ensures
      var s := Numeral(value, radix);
      && buf[at..at + |s|] == s && buf[at + |s|] == NUL
      && buf[..at] == old(buf[..at]) && buf[at + |s| + 1..] == old(buf[at + |s| + 1..])
  {
    hide StrLen, Numeral, Backwards, Reversed, Digit;
    if value == 0 {
      ZeroNumeral(radix);
      StoreZero(buf, at);
      return;
    }
    BackwardsReversed(value, radix);
    var j := WriteBackwards(value, buf, at, radix);
    Finish(buf, at, j, value, radix);
    assert old(buf[at + j..])[1..] == old(buf[at + j + 1..]);
  }

  method StoreZero(buf: array<Byte>, at: nat)
    requires at + 1 < buf.Length
    modifies buf
    ensures buf[at..at + 1] == [Digit(0)] && buf[at + 1] == NUL
    ensures buf[..at] == old(buf[..at]) && buf[at + 2..] == old(buf[at + 2..])
  {
    buf[at] := Digit(0);
    buf[at + 1] := NUL;
  }

  // The terminating NUL, and the reversal.
  method Finish(buf: array<Byte>, at: nat, j: nat, ghost value: nat, ghost radix: nat)
    requires 2 <= radix <= 36 && value > 0 && at + j < buf.Length && j == |Backwards(value, radix)|
    requires buf[at..at + j] == Backwards(value, radix)
    modifies buf
    ensures buf[at..at + j] == Numeral(value, radix) && buf[at + j] == NUL
    ensures buf[..at] == old(buf[..at]) && buf[at + j + 1..] == old(buf[at + j..])[1..]
  {
    hide StrLen, Numeral, Backwards, Reversed, Digit;
    buf[at + j] := NUL;
    assert buf[..at] == old(buf[..at]) && buf[at..at + j] == Backwards(value, radix);
    TextAt(buf[..], at, value, radix);
    assert buf[at..] == buf[..][at..];
    assert buf[at + j + 1..] == old(buf[at + j..])[1..];
    ghost var text, written := buf[at..at + j], buf[at + j..];
    Strrev(buf, at);
    assert buf[at..at + j] == Reversed(text) == Numeral(value, radix);
    assert buf[at + j..][0] == written[0] && buf[at + j..][1..] == written[1..];
  }

  lemma ZeroNumeral(radix: nat)
    requires 2 <= radix <= 36
    ensures Numeral(0, radix) == [Digit(0)]
  {
  }

  // The loop: digits from the lowest place up.
  method WriteBackwards(value: nat, buf: array<Byte>, at: nat, radix: nat) returns (j: nat)
    requires 2 <= radix <= 36 && at + |Backwards(value, radix)| <= buf.Length
    modifies buf
    ensures j == |Backwards(value, radix)| && buf[at..at + j] == Backwards(value, radix)
    ensures buf[..at] == old(buf[..at]) && buf[at + j..] == old(buf[at + j..])
  {
    hide Quot, Rem, Digit;
    ghost var digits := Backwards(value, radix);
    var newval: nat := value;
    j := 0;
    while newval > 0
      invariant 0 <= j <= |digits| && Backwards(newval, radix) == digits[j..]
      invariant buf[at..at + j] == digits[..j]
      invariant buf[..at] == old(buf[..at]) && buf[at + |digits|..] == old(buf[at + |digits|..])
      decreases newval
    {
      var i := Rem(newval, radix);
      buf[at + j] := Digit(i);
      assert digits[j..][0] == digits[j];
      assert digits[j..][1..] == digits[j + 1..];
      j := j + 1;
      newval := Quot(newval, radix);
    }
  }

  lemma TextAt(buf: seq<Byte>, at: nat, value: nat, radix: nat)
    requires 2 <= radix <= 36 && value > 0 && at + |Backwards(value, radix)| < |buf|
    requires buf[at..at + |Backwards(value, radix)|] == Backwards(value, radix)
    requires buf[at + |Backwards(value, radix)|] == NUL
    ensures StrLen(buf[at..]) == |Backwards(value, radix)| && NUL in buf[at..]
    ensures Reversed(buf[at..at + |Backwards(value, radix)|]) == Numeral(value, radix)
    ensures |Numeral(value, radix)| == |Backwards(value, radix)|
  {
    hide StrLen, Backwards, Numeral;
    var digits := Backwards(value, radix);
    var text := buf[at..];
    BackwardsReversed(value, radix);
    NoNul(value, radix);
    assert text[|digits|] == NUL;
    forall k | 0 <= k < |digits| ensures text[k] == digits[k] {
      assert text[k] == buf[at..at + |digits|][k];
    }
    StrLenIs(text, |digits|);
  }

  lemma {:induction false} NoNul(value: nat, radix: nat)
    requires 2 <= radix <= 36
    ensures forall i :: 0 <= i < |Backwards(value, radix)| ==> Backwards(value, radix)[i] != NUL
    decreases value
  {
    hide Quot, Rem, Digit;
    if value > 0 {
      NoNul(Quot(value, radix), radix);
    }
  }

  lemma StrLenIs(s: seq<Byte>, n: nat)
    requires n < |s| && s[n] == NUL && forall k :: 0 <= k < n ==> s[k] != NUL
    ensures StrLen(s) == n
  {
  }

  lemma {:induction false} LeadingZeros(m: nat, s: seq<Byte>, radix: nat)
    ensures Decode(Fill(m, ZERO) + s, radix) == Decode(s, radix)
    decreases m + |s|
  {
    var t := Fill(m, ZERO) + s;
    if s != [] {
      assert t[..|t| - 1] == Fill(m, ZERO) + s[..|s| - 1];
      LeadingZeros(m, s[..|s| - 1], radix);
    } else if m > 0 {
      assert t[..|t| - 1] == Fill(m - 1, ZERO) + [];
      LeadingZeros(m - 1, [], radix);
    }
  }

  // The string that starts at an index: what puts prints.
  method Puts(buf: array<Byte>, at: nat) returns (printed: seq<Byte>)
    requires at <= buf.Length && NUL in buf[at..]
    ensures printed == buf[at..][..StrLen(buf[at..])]
  {
    var n := Strlen(buf[at..]);
    printed := buf[at..][..n];
  }

  // What Itoa left, printed.
  lemma PrintedNumeral(buf: seq<Byte>, at: nat, value: nat, radix: nat)
    requires 2 <= radix <= 36 && at + |Numeral(value, radix)| < |buf|
    requires buf[at..at + |Numeral(value, radix)|] == Numeral(value, radix) && buf[at + |Numeral(value, radix)|] == NUL
    ensures StrLen(buf[at..]) == |Numeral(value, radix)| && NUL in buf[at..]
    ensures buf[at..][..|Numeral(value, radix)|] == Numeral(value, radix)
  {
    hide Numeral, StrLen;
    var s := Numeral(value, radix);
    RoundTrip(value, radix);
    assert buf[at..][|s|] == NUL;
    forall k | 0 <= k < |s| ensures buf[at..][k] != NUL {
      assert buf[at..][k] == buf[at..at + |s|][k] == s[k] && IsDigit(s[k], radix);
    }
    StrLenIs(buf[at..], |s|);
  }

  // %x and %u.
  method FormatUnsigned(value: nat, radix: nat) returns (printed: seq<Byte>)
    requires value < TWO_32 && (radix == 10 || radix == 16)
    ensures printed == Numeral(value, radix) && Decode(printed, radix) == value
  {
    var convBuf := new Byte[36];
    WordLength(value, radix);
    RoundTrip(value, radix);
    Itoa(value, convBuf, 0, radix);
    PrintedNumeral(convBuf[..], 0, value, radix);
    assert convBuf[0..] == convBuf[..];
    printed := Puts(convBuf, 0);
  }

  // %#x: the number is written at index 8, and the zeros before it begin at its length.
  method FormatHex(value: nat) returns (printed: seq<Byte>)
    requires value < TWO_32
    ensures |printed| == 8 && Decode(printed, 16) == value
    ensures forall i :: 0 <= i < 8 ==> IsDigit(printed[i], 16)
  {
    hide StrLen, Numeral, Decode;
    var convBuf := new Byte[64];
    WordLength(value, 16);
    Itoa(value, convBuf, 8, 16);
    ghost var s := Numeral(value, 16);
    RoundTrip(value, 16);
    PrintedNumeral(convBuf[..], 8, value, 16);
    assert convBuf[8..] == convBuf[..][8..];
    var start := Strlen(convBuf[8..]);
    ghost var tail := convBuf[8..];
    var i := start;
    while i < 8
      invariant start <= i <= 8
      invariant forall k :: start <= k < i ==> convBuf[k] == ZERO
      invariant convBuf[8..] == tail
    {
      convBuf[i] := ZERO;
      i := i + 1;
    }
    PaddedTo8(convBuf[..], s, tail);
    assert convBuf[start..] == convBuf[..][start..];
    printed := Puts(convBuf, start);
    LeadingZeros(8 - start, s, 16);
  }

  lemma PaddedTo8(buf: seq<Byte>, s: seq<Byte>, tail: seq<Byte>)
    requires |buf| == 64 && 1 <= |s| <= 8 && buf[8..] == tail && tail[..|s|] == s && tail[|s|] == NUL
    requires (forall k :: |s| <= k < 8 ==> buf[k] == ZERO) && forall i :: 0 <= i < |s| ==> IsDigit(s[i], 16)
    ensures
      var t := buf[|s|..];
      && StrLen(t) == 8 && t[..8] == Fill(8 - |s|, ZERO) + s && NUL in t
      && forall i :: 0 <= i < 8 ==> IsDigit(t[i], 16)
  {
    hide StrLen;
    var t := buf[|s|..];
    assert t[8] == tail[|s|];
    forall i | 0 <= i < 8 ensures t[i] == (Fill(8 - |s|, ZERO) + s)[i] && IsDigit(t[i], 16) {
      if i >= 8 - |s| {
        assert t[i] == tail[i - (8 - |s|)] == tail[..|s|][i - (8 - |s|)];
      } else {
        assert ZERO == Digit(0);
      }
    }
    StrLenIs(t, 8);
  }

  // Two's complement negation, which leaves the least number as it is, and the conversion to an
  // unsigned argument.
  function Negated(value: int): int {
    if value == -TWO_31 then value else -value
  }

  function AsUnsigned(value: int): nat {
    value % TWO_32
  }

  function DecodeSigned(s: seq<Byte>): int {
    if s != [] && s[0] == MINUS then 0 - (Decode(s[1..], 10) as int) else Decode(s, 10) as int
  }

  // %d, on every 32-bit value including the least.
  method FormatSigned(value: int) returns (printed: seq<Byte>)
    requires -TWO_31 <= value < TWO_31
    ensures DecodeSigned(printed) == value
    ensures printed != [] && (value < 0 <==> printed[0] == MINUS)
  {
    hide StrLen, Numeral, Decode;
    var convBuf := new Byte[36];
    var magnitude := if value < 0 then AsUnsigned(Negated(value)) else value;
    WordLength(magnitude, 10);
    RoundTrip(magnitude, 10);
    ghost var s := Numeral(magnitude, 10);
    assert s[0] != MINUS by {
      assert IsDigit(s[0], 10);
    }
    if value < 0 {
      convBuf[0] := MINUS;
      Itoa(magnitude, convBuf, 1, 10);
      assert convBuf[..1][0] == MINUS;
      PrintedNumeral(convBuf[..], 1, magnitude, 10);
      SignedText(convBuf[..], s);
    } else {
      Itoa(magnitude, convBuf, 0, 10);
      PrintedNumeral(convBuf[..], 0, magnitude, 10);
    }
    assert convBuf[0..] == convBuf[..];
    printed := Puts(convBuf, 0);
  }

  lemma SignedText(buf: seq<Byte>, s: seq<Byte>)
    requires 1 + |s| < |buf| && buf[0] == MINUS && StrLen(buf[1..]) == |s| && buf[1..][..|s|] == s
    ensures StrLen(buf) == |s| + 1 && NUL in buf && buf[..|s| + 1] == [MINUS] + s
  {
    assert buf[|s| + 1] == buf[1..][|s|];
  }
}
