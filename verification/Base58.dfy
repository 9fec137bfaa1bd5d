/** The indexer's base58 decoder (b58decode in apps/indexer/src/index.ts). */
module Base58 {
  import opened Arith

  const ALPHABET: string := "1" + "23456789" + "ABCDEFGHJKLMNPQRSTUVWXYZ" + "abcdefghijkmnopqrstuvwxyz"

  type Byte = x: int | 0 <= x < 256

  /** The position of a character in the alphabet, if it is there. */
  function IndexFrom(symbols: string, c: char, i: nat): (d: int)
    requires i <= |symbols|
    ensures d == -1 || (i <= d < |symbols| && symbols[d] == c)
    ensures d == -1 <==> forall k :: i <= k < |symbols| ==> symbols[k] != c
    decreases |symbols| - i
  {
    if i == |symbols| then -1 else if symbols[i] == c then i else IndexFrom(symbols, c, i + 1)
  }

  function Digit(c: char): int {
    IndexFrom(ALPHABET, c, 0)
  }

  predicate InAlphabet(s: string) {
    forall i :: 0 <= i < |s| ==> Digit(s[i]) >= 0
  }

  /** The alphabet in ASCII order: digits without 0, capitals without I and O, letters without l. */
  predicate IsSymbol(c: char) {
    ('1' <= c <= '9') || ('A' <= c <= 'Z' && c != 'I' && c != 'O') || ('a' <= c <= 'z' && c != 'l')
  }

  predicate Ordered(s: string) {
    && (forall i :: 0 <= i < |s| ==> IsSymbol(s[i]))
    && (forall i, j :: 0 <= i < j < |s| ==> s[i] < s[j])
  }

  lemma OrderedJoin(s: string, t: string)
    requires Ordered(s) && Ordered(t) && |s| > 0 && |t| > 0 && s[|s| - 1] < t[0]
    ensures Ordered(s + t)
  {
    hide IsSymbol;
    forall i, j | 0 <= i < j < |s + t|
      ensures (s + t)[i] < (s + t)[j]
    {
      if i < |s| <= j {
        assert s[i] <= s[|s| - 1] && t[0] <= t[j - |s|];
      }
    }
  }

  lemma DigitsOrdered()
    ensures Ordered("1") && Ordered("23456789")
  {
  }

  lemma CapitalsOrdered()
    ensures Ordered("ABCDEFGHJKLMNPQRSTUVWXYZ")
  {
  }

  lemma LettersOrdered()
    ensures Ordered("abcdefghijkmnopqrstuvwxyz")
  {
  }

  /** Fifty-eight symbols in ascending order: with what a symbol is, that is the whole alphabet. */
  lemma AlphabetOrdered()
    ensures |ALPHABET| == 58 && Ordered(ALPHABET)
  {
    DigitsOrdered();
    CapitalsOrdered();
    LettersOrdered();
    hide Ordered;
    OrderedJoin("1", "23456789");
    OrderedJoin("1" + "23456789", "ABCDEFGHJKLMNPQRSTUVWXYZ");
    OrderedJoin("1" + "23456789" + "ABCDEFGHJKLMNPQRSTUVWXYZ", "abcdefghijkmnopqrstuvwxyz");
  }

  /** The digit of a symbol is its position in the alphabet. */
  lemma DigitIsPosition(c: char, k: nat)
    ensures Digit(c) == k <==> k < 58 && ALPHABET[k] == c
  {
    AlphabetOrdered();
    hide ALPHABET, IsSymbol;
  }

  lemma FirstSymbol()
    ensures |ALPHABET| == 58 && ALPHABET[0] == '1'
  {
  }

  lemma DigitFacts(c: char)
    ensures Digit(c) < 58
    ensures Digit(c) == 0 <==> c == '1'
  {
    FirstSymbol();
  }

  /** Distinct characters have distinct digits. */
  lemma DigitInjective(c: char, d: char)
    requires Digit(c) == Digit(d) >= 0
    ensures c == d
  {
  }

  /** The base-58 number a string spells. */
  function Value58(s: string): (v: nat)
    requires InAlphabet(s)
  {
    if |s| == 0 then 0 else Value58(s[..|s| - 1]) * 58 + Digit(s[|s| - 1])
  }

  /** The number a byte list stands for, least significant byte first, and most significant first. */
  function Little(b: seq<Byte>): nat {
    if |b| == 0 then 0 else b[0] + 256 * Little(b[1..])
  }

  function Big(b: seq<Byte>): nat {
    if |b| == 0 then 0 else Big(b[..|b| - 1]) * 256 + b[|b| - 1]
  }

  function Reverse(b: seq<Byte>): (r: seq<Byte>)
    ensures |r| == |b| && forall i :: 0 <= i < |b| ==> r[i] == b[|b| - 1 - i]
  {
    if |b| == 0 then [] else Reverse(b[1..]) + [b[0]]
  }

  function Zeros(n: nat): (z: seq<Byte>)
    ensures |z| == n && forall i :: 0 <= i < n ==> z[i] == 0
  {
    seq(n, _ => 0)
  }

  /** How many '1's a string starts with. */
  function LeadingOnes(s: string): (n: nat)
    ensures n <= |s| && forall i :: 0 <= i < n ==> s[i] == '1'
    ensures n < |s| ==> s[n] != '1'
  {
    if |s| == 0 || s[0] != '1' then 0 else 1 + LeadingOnes(s[1..])
  }

  /** No zero byte at the top, except in the one-byte number 0. */
  predicate Minimal(b: seq<Byte>) {
    |b| > 0 && (b[|b| - 1] != 0 || |b| == 1)
  }

  // ---------- the decoder ----------

  lemma {:induction false} LittleAppends(b: seq<Byte>, c: seq<Byte>)
    ensures Little(b + c) == Little(b) + Pow256(|b|) * Little(c)
  {
    if |b| == 0 {
      assert b + c == c;
    } else {
      LittleAppends(b[1..], c);
      assert (b + c)[1..] == b[1..] + c;
      MulAssociates(256, Pow256(|b| - 1), Little(c));
    }
  }

  function Pow256(n: nat): (p: nat)
    ensures p > 0
  {
    if n == 0 then 1 else 256 * Pow256(n - 1)
  }

  lemma LittleOne(x: Byte)
    ensures Little([x]) == x
  {
    assert [x][1..] == [];
  }

  /** One digit: multiply the number by 58 in place and add the digit. */
  method MulAdd(bytes: seq<Byte>, digit: int) returns (out: seq<Byte>)
    requires Minimal(bytes) && 0 <= digit < 58
    ensures Minimal(out)
    ensures Little(out) == Little(bytes) * 58 + digit
  {
    out := bytes;
    var carry := digit;
    var j := 0;
    assert out[..0] == [] && bytes[..0] == [];
    while j < |out|
      invariant 0 <= j <= |out| == |bytes|
      invariant 0 <= carry < 58
      invariant out[j..] == bytes[j..]
      invariant Little(out[..j]) + Pow256(j) * carry == Little(bytes[..j]) * 58 + digit
      invariant j == |bytes| && bytes[j - 1] != 0 ==> carry > 0 || out[j - 1] != 0
    {
      var x: int := out[j];
      x := carry + x * 58;
      ghost var before := out;
      CarryStep(before, bytes, j, carry, digit, x);
      out := out[j := x % 256];
      carry := x / 256;
      assert out[..j + 1] == before[..j] + [x % 256];
      assert bytes[..j + 1] == bytes[..j] + [bytes[j]];
      j := j + 1;
    }
    assert out[..j] == out && bytes[..j] == bytes;
    out := PushCarry(out, carry, Little(bytes) * 58 + digit);
  }

  /** What is left of the carry becomes new top bytes. */
  method PushCarry(bytes: seq<Byte>, digit: int, ghost total: nat) returns (out: seq<Byte>)
    requires 0 <= digit < 58 && (digit == 0 ==> Minimal(bytes))
    requires Little(bytes) + Pow256(|bytes|) * digit == total
    ensures Minimal(out) && Little(out) == total
  {
    out := bytes;
    var carry := digit;
    while carry > 0
      invariant 0 <= carry < 58
      invariant Little(out) + Pow256(|out|) * carry == total
      invariant carry == 0 ==> Minimal(out)
    {
      LittleAppends(out, [carry % 256]);
      LittleOne(carry % 256);
      out := out + [carry % 256];
      carry := carry / 256;
    }
  }

  lemma CarryStep(out: seq<Byte>, bytes: seq<Byte>, j: nat, carry: nat, digit: int, x: nat)
    requires j < |out| == |bytes| && out[j] == bytes[j] && x == carry + 58 * (out[j] as int)
    requires Little(out[..j]) + Pow256(j) * carry == Little(bytes[..j]) * 58 + digit
    ensures Little(out[..j] + [x % 256]) + Pow256(j + 1) * (x / 256)
         == Little(bytes[..j] + [bytes[j]]) * 58 + digit
  {
    var p := Pow256(j);
    LittleAppends(out[..j], [x % 256]);
    LittleAppends(bytes[..j], [bytes[j]]);
    LittleOne(x % 256);
    LittleOne(bytes[j]);
    CarryArithmetic(p, carry, out[j], x);
    hide Little, Pow256;
  }

  lemma CarryArithmetic(p: nat, carry: nat, b: nat, x: nat)
    requires x == carry + 58 * b
    ensures p * (x % 256) + (256 * p) * (x / 256) == p * carry + (p * b) * 58
  {
    MulAssociates(256, p, x / 256);
    MulAssociates(p, 256, x / 256);
    MulAssociates(58, p, b);
    MulAssociates(p, 58, b);
    assert p * (x % 256 + 256 * (x / 256)) == p * (x % 256) + p * (256 * (x / 256));
    assert p * (carry + 58 * b) == p * carry + p * (58 * b);
  }

  /** The minimal bytes of a number, least significant first; 0 is one zero byte. */
  function ToLittle(v: nat): (b: seq<Byte>)
    ensures Minimal(b)
  {
    if v < 256 then [v] else [v % 256] + ToLittle(v / 256)
  }

  lemma {:induction false} MinimalIsUnique(b: seq<Byte>)
    requires Minimal(b)
    ensures b == ToLittle(Little(b))
    ensures |b| > 1 ==> Little(b) >= 256
  {
    if |b| == 1 {
      LittleOne(b[0]);
      assert b == [b[0]];
    } else {
      var t := b[1..];
      MinimalIsUnique(t);
      assert Little(t) >= 1 by {
        if |t| == 1 {
          LittleOne(t[0]);
          assert t == [t[0]];
        }
      }
      assert b == [b[0]] + t;
    }
  }

  /** What the decoder returns for a string over the alphabet. */
  function Decoded(s: string): seq<Byte>
    requires InAlphabet(s)
  {
    Zeros(LeadingOnes(s)) + Reverse(ToLittle(Value58(s)))
  }

  lemma {:induction false} ReverseConcat(b: seq<Byte>, c: seq<Byte>)
    ensures Reverse(b + c) == Reverse(c) + Reverse(b)
  {
  }

  lemma {:induction false} LeadingOnesStops(s: string, k: nat)
    requires k <= |s| && (forall i :: 0 <= i < k ==> s[i] == '1') && (k == |s| || s[k] != '1')
    ensures LeadingOnes(s) == k
  {
    if k > 0 {
      LeadingOnesStops(s[1..], k - 1);
    }
  }

  /** b58decode: nothing for a string outside the alphabet, otherwise Decoded. */
  method B58Decode(s: string) returns (out: seq<Byte>)
    ensures !InAlphabet(s) ==> out == []
    ensures InAlphabet(s) ==> out == Decoded(s)
  {
    var bytes: seq<Byte> := [0];
    LittleOne(0);
    var i := 0;
    while i < |s|
      invariant 0 <= i <= |s| && InAlphabet(s[..i])
      invariant Minimal(bytes) && Little(bytes) == Value58(s[..i])
    {
      var digit := Digit(s[i]);
      if digit < 0 {
        return [];
      }
      DigitFacts(s[i]);
      assert s[..i + 1][..i] == s[..i];
      bytes := MulAdd(bytes, digit);
      i := i + 1;
    }
    assert s[..i] == s;
    MinimalIsUnique(bytes);
    out := PrependZeros(s, bytes);
  }

  /** One more zero byte for every leading '1', and the whole turned around. */
  method PrependZeros(s: string, number: seq<Byte>) returns (out: seq<Byte>)
    ensures out == Zeros(LeadingOnes(s)) + Reverse(number)
  {
    var bytes := number;
    var k := 0;
    while k < |s| && s[k] == '1'
      invariant 0 <= k <= |s| && forall j :: 0 <= j < k ==> s[j] == '1'
      invariant bytes == number + Zeros(k)
    {
      bytes := bytes + [0];
      k := k + 1;
    }
    LeadingOnesStops(s, k);
    ReverseConcat(number, Zeros(k));
    assert Reverse(Zeros(k)) == Zeros(k);
    return Reverse(bytes);
  }

  // ---------- what the result means ----------

  lemma {:induction false} BigIsLittleReversed(b: seq<Byte>)
    ensures Big(Reverse(b)) == Little(b)
  {
    if |b| > 0 {
      var r := Reverse(b);
      BigIsLittleReversed(b[1..]);
      assert r[..|r| - 1] == Reverse(b[1..]);
    }
  }

  lemma {:induction false} BigIgnoresZeros(n: nat, b: seq<Byte>)
    ensures Big(Zeros(n) + b) == Big(b)
    decreases n + |b|
  {
    var r := Zeros(n) + b;
    if |b| > 0 {
      BigIgnoresZeros(n, b[..|b| - 1]);
      assert r[..|r| - 1] == Zeros(n) + b[..|b| - 1];
    } else if n > 0 {
      BigIgnoresZeros(n - 1, b);
      assert r[..|r| - 1] == Zeros(n - 1) + b;
    }
  }

  lemma {:induction false} ToLittleValue(v: nat)
    ensures Little(ToLittle(v)) == v
  {
    if v < 256 {
      LittleOne(v);
    } else {
      ToLittleValue(v / 256);
      assert ToLittle(v)[1..] == ToLittle(v / 256);
    }
  }

  /** Read as one big-endian number, the decoded bytes are the number the string spells. */
  lemma DecodedValue(s: string)
    requires InAlphabet(s)
    ensures Big(Decoded(s)) == Value58(s)
  {
    BigIgnoresZeros(LeadingOnes(s), Reverse(ToLittle(Value58(s))));
    BigIsLittleReversed(ToLittle(Value58(s)));
    ToLittleValue(Value58(s));
  }

  lemma {:induction false} ZeroMeansAllOnes(s: string)
    requires InAlphabet(s)
    ensures Value58(s) == 0 <==> LeadingOnes(s) == |s|
  {
    hide Digit;
    if |s| > 0 {
      var p := s[..|s| - 1];
      ZeroMeansAllOnes(p);
      DigitFacts(s[|s| - 1]);
      assert s == p + [s[|s| - 1]];
      if LeadingOnes(s) == |s| {
        LeadingOnesStops(p, |p|);
      }
      if Value58(s) == 0 {
        LeadingOnesStops(s, |s|);
      }
    }
  }

  /**
   * The decoding algorithm of draft-msporny-base58: a zero byte for every leading '1',
   * then the number's minimal bytes, none for the number zero.
   */
  function Standard(s: string): seq<Byte>
    requires InAlphabet(s)
  {
    Zeros(LeadingOnes(s)) + (if Value58(s) == 0 then [] else Reverse(ToLittle(Value58(s))))
  }

  /**
   * The decoder follows the draft exactly on the strings that are not all '1's; on those
   * (the empty string included) it returns one zero byte too many.
   */
  lemma StandardExactlyOffAllOnes(s: string)
    requires InAlphabet(s)
    ensures Decoded(s) == Standard(s) <==> LeadingOnes(s) < |s|
    ensures LeadingOnes(s) == |s| ==> Decoded(s) == Zeros(|s| + 1) && Standard(s) == Zeros(|s|)
  {
    ZeroMeansAllOnes(s);
    if LeadingOnes(s) == |s| {
      AllOnesDecode(s);
      hide Decoded, Standard, Zeros;
      assert |Decoded(s)| != |Standard(s)|;
    }
  }

  lemma OneMoreZero(n: nat)
    ensures Zeros(n) + [0] == Zeros(n + 1) && Zeros(n) + [] == Zeros(n)
  {
  }

  lemma ZeroIsOneByte()
    ensures Reverse(ToLittle(0)) == [0]
  {
    assert ToLittle(0) == [0];
    assert Reverse([0]) == Reverse([]) + [0];
  }

  lemma AllOnesDecode(s: string)
    requires InAlphabet(s) && Value58(s) == 0 && LeadingOnes(s) == |s|
    ensures Decoded(s) == Zeros(|s| + 1) && Standard(s) == Zeros(|s|)
  {
    hide InAlphabet, Value58, LeadingOnes, Digit, ToLittle, Reverse;
    ZeroIsOneByte();
    OneMoreZero(|s|);
  }

  // ---------- injectivity ----------

  /** A string that does not start with '1' is determined by the number it spells. */
  lemma {:induction false} SameNumberSameDigits(s: string, t: string)
    requires InAlphabet(s) && InAlphabet(t) && Value58(s) == Value58(t)
    requires LeadingOnes(s) == 0 == LeadingOnes(t)
    ensures s == t
    decreases |s|
  {
    hide Digit;
    ZeroMeansAllOnes(s);
    ZeroMeansAllOnes(t);
    if |s| > 0 {
      var p, q := s[..|s| - 1], t[..|t| - 1];
      var c, d := s[|s| - 1], t[|t| - 1];
      DigitFacts(c);
      DigitFacts(d);
      LastDigit(Value58(p), Digit(c), Value58(q), Digit(d));
      DigitInjective(c, d);
      NoLeadingOnes(s, |s| - 1);
      NoLeadingOnes(t, |t| - 1);
      SameNumberSameDigits(p, q);
      assert s == p + [c] && t == q + [d];
    }
  }

  lemma NoLeadingOnes(s: string, n: nat)
    requires n <= |s| && LeadingOnes(s) == 0
    ensures LeadingOnes(s[..n]) == 0
  {
    LeadingOnesStops(s[..n], 0);
  }

  lemma LastDigit(a: nat, c: int, b: nat, d: int)
    requires 0 <= c < 58 && 0 <= d < 58 && a * 58 + c == b * 58 + d
    ensures a == b && c == d
  {
  }

  lemma {:induction false} LeadingOnesAreWorthless(s: string, n: nat)
    requires InAlphabet(s) && n <= LeadingOnes(s)
    ensures InAlphabet(s[n..]) && Value58(s) == Value58(s[n..])
    decreases |s|
  {
    hide Digit, LeadingOnes;
    if |s| == n {
      ZeroMeansAllOnes(s);
    } else {
      var p, t := s[..|s| - 1], s[n..];
      assert t[..|t| - 1] == p[n..];
      PrefixOnes(s, n);
      LeadingOnesAreWorthless(p, n);
    }
  }

  lemma PrefixOnes(s: string, n: nat)
    requires n <= LeadingOnes(s) && n < |s|
    ensures n <= LeadingOnes(s[..|s| - 1])
  {
    var k, p := LeadingOnes(s), s[..|s| - 1];
    if k == |s| {
      LeadingOnesStops(p, |p|);
    } else {
      LeadingOnesStops(p, k);
    }
  }

  /** The decoded bytes tell how many leading '1's there were. */
  lemma ZerosReveal(s: string, t: string)
    requires InAlphabet(s) && InAlphabet(t) && Decoded(s) == Decoded(t)
    requires Value58(s) > 0 && Value58(t) > 0
    ensures LeadingOnes(s) == LeadingOnes(t)
  {
    FirstByteAfterZeros(s);
    FirstByteAfterZeros(t);
    FirstNonZeroUnique(Decoded(s), LeadingOnes(s), LeadingOnes(t));
  }

  predicate FirstNonZeroAt(b: seq<Byte>, n: nat) {
    n < |b| && b[n] != 0 && forall i :: 0 <= i < n ==> b[i] == 0
  }

  lemma FirstNonZeroUnique(b: seq<Byte>, n: nat, m: nat)
    requires FirstNonZeroAt(b, n) && FirstNonZeroAt(b, m)
    ensures n == m
  {
  }

  lemma FirstByteAfterZeros(s: string)
    requires InAlphabet(s) && Value58(s) > 0
    ensures FirstNonZeroAt(Decoded(s), LeadingOnes(s))
  {
    var b := ToLittle(Value58(s));
    ToLittleValue(Value58(s));
    if |b| == 1 {
      LittleOne(b[0]);
      assert b == [b[0]];
    }
    assert Reverse(b)[0] == b[|b| - 1];
  }

  /** Two strings over the alphabet never decode to the same bytes. */
  lemma DecodingIsInjective(s: string, t: string)
    requires InAlphabet(s) && InAlphabet(t) && Decoded(s) == Decoded(t)
    ensures s == t
  {
    DecodedValue(s);
    DecodedValue(t);
    ZeroMeansAllOnes(s);
    ZeroMeansAllOnes(t);
    hide *;
    if Value58(s) == 0 {
      StandardExactlyOffAllOnes(s);
      StandardExactlyOffAllOnes(t);
      SameOnes(s, t);
    } else {
      ZerosReveal(s, t);
      var n := LeadingOnes(s);
      LeadingOnesAreWorthless(s, n);
      LeadingOnesAreWorthless(t, n);
      AfterOnes(s);
      AfterOnes(t);
      SameNumberSameDigits(s[n..], t[n..]);
      SameAfterOnes(s, t, n);
    }
  }

  lemma SameAfterOnes(s: string, t: string, n: nat)
    requires LeadingOnes(s) == n == LeadingOnes(t) && s[n..] == t[n..]
    ensures s == t
  {
    assert s[..n] == t[..n];
    assert s == s[..n] + s[n..] && t == t[..n] + t[n..];
    hide LeadingOnes;
  }

  lemma SameOnes(s: string, t: string)
    requires LeadingOnes(s) == |s| && LeadingOnes(t) == |t| && Zeros(|s| + 1) == Zeros(|t| + 1)
    ensures s == t
  {
    assert |Zeros(|s| + 1)| == |Zeros(|t| + 1)|;
  }

  lemma AfterOnes(s: string)
    ensures LeadingOnes(s[LeadingOnes(s)..]) == 0
  {
    LeadingOnesStops(s[LeadingOnes(s)..], 0);
  }
}
