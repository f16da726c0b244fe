/** Hexadecimal text: `bytes_to_hex` and `hex_to_bytes` in C, `to_hex` and `from_hex` in Rust. */
module Hex {
  import opened Octets

  function DigitOf(v: int): (c: char)
    requires 0 <= v < 16
    ensures DigitVal(c) == Some(v) && PlainChar(c)
  {
    if v < 10 then '0' + v as char else 'a' + (v - 10) as char
  }

  function DigitVal(c: char): (r: Option<int>)
    ensures r.Some? ==> 0 <= r.value < 16
  {
    if '0' <= c <= '9' then Some(c as int - '0' as int)
    else if 'a' <= c <= 'f' then Some(c as int - 'a' as int + 10)
    else if 'A' <= c <= 'F' then Some(c as int - 'A' as int + 10)
    else None
  }

  predicate IsSpace(c: char) {
    c == ' ' || c == '\n' || c == '\r' || c == '\t' || c == 11 as char || c == 12 as char
  }

  /** What the printed digits are made of. */
  predicate PlainChar(c: char) {
    !IsSpace(c) && c != '+'
  }

  predicate Plain(s: string) {
    forall i :: 0 <= i < |s| ==> PlainChar(s[i])
  }

  function ByteText(b: Byte): (r: string)
    ensures |r| == 2 && Plain(r)
  {
    [DigitOf(b / 16), DigitOf(b % 16)]
  }

  function ToHex(x: Bytes): (r: string)
    ensures |r| == 2 * |x| && |r| % 2 == 0 && Plain(r)
  {
    if x == [] then [] else ToHex(x[..|x| - 1]) + ByteText(x[|x| - 1])
  }

  // ---------------------------------------------------------------- decoders

  /** C: both characters must be digits. */
  function ByteOfC(a: char, b: char): Option<Byte> {
    if DigitVal(a).Some? && DigitVal(b).Some? then Some(DigitVal(a).value * 16 + DigitVal(b).value) else None
  }

  /** Rust: `from_str_radix` also takes a plus sign and one digit. */
  function ByteOfRust(a: char, b: char): Option<Byte> {
    if a == '+' then DigitVal(b) else ByteOfC(a, b)
  }

  /** Pairs of characters, decoded one after another. */
  function Pairs(s: string, rust: bool): (r: Option<Bytes>)
    requires |s| % 2 == 0
    ensures r.Some? ==> 2 * |r.value| == |s|
  {
    if s == [] then Some([]) else
    var init := Pairs(s[..|s| - 2], rust);
    var last := if rust then ByteOfRust(s[|s| - 2], s[|s| - 1]) else ByteOfC(s[|s| - 2], s[|s| - 1]);
    if init.None? || last.None? then None else Some(init.value + [last.value])
  }

  function TrimStart(s: string): string {
    if s != [] && IsSpace(s[0]) then TrimStart(s[1..]) else s
  }

  function TrimEnd(s: string): string {
    if s != [] && IsSpace(s[|s| - 1]) then TrimEnd(s[..|s| - 1]) else s
  }

  function Trim(s: string): string {
    TrimEnd(TrimStart(s))
  }

  /** Rust's `from_hex`. */
  function FromHexRust(s: string): Option<Bytes> {
    var x := Trim(s);
    if |x| % 2 != 0 then None else Pairs(x, true)
  }

  /** Newlines, carriage returns and spaces at the end. */
  function Chomp(s: string): string {
    if s != [] && (s[|s| - 1] == '\n' || s[|s| - 1] == '\r' || s[|s| - 1] == ' ') then Chomp(s[..|s| - 1]) else s
  }

  /** C's `hex_to_bytes` into a buffer of `max` bytes; `None` is its -1. */
  function FromHexC(s: string, max: nat): Option<Bytes> {
    var x := Chomp(s);
    if |x| % 2 != 0 || |x| / 2 > max then None else Pairs(x, false)
  }

  // ---------------------------------------------------------------- round trips

  lemma PairsAppend(s: string, x: Bytes, b: Byte, rust: bool)
    requires |s| % 2 == 0 && Pairs(s, rust) == Some(x)
    ensures Pairs(s + ByteText(b), rust) == Some(x + [b])
  {
    var r := s + ByteText(b);
    assert r[..|r| - 2] == s;
    assert r[|r| - 2] == DigitOf(b / 16) && r[|r| - 1] == DigitOf(b % 16);
    assert DigitOf(b / 16) != '+' && b == b / 16 * 16 + b % 16;
  }

  lemma {:induction false} PairsInvert(x: Bytes, rust: bool)
    ensures Pairs(ToHex(x), rust) == Some(x)
  {
    if x != [] {
      var init, last := x[..|x| - 1], x[|x| - 1];
      var s := ToHex(init);
      assert ToHex(x) == s + ByteText(last) && init + [last] == x;
      PairsInvert(init, rust);
      PairsAppend(s, init, last, rust);
    }
  }

  /** Nothing is cut off printed digits. */
  lemma TrimPlain(s: string)
    requires Plain(s)
    ensures Trim(s) == s && Chomp(s) == s && Chomp(s + "\n") == s
  {
    var r := s + "\n";
    assert r[|r| - 1] == '\n' && r[..|r| - 1] == s;
  }

  /** Either language reads back what either prints, with or without the line end. */
  lemma HexRoundTrip(x: Bytes, max: nat)
    requires |x| <= max
    ensures FromHexRust(ToHex(x)) == Some(x)
    ensures FromHexC(ToHex(x), max) == Some(x) && FromHexC(ToHex(x) + "\n", max) == Some(x)
  {
    PairsInvert(x, true);
    PairsInvert(x, false);
    DecodersAgree(ToHex(x), x, max);
  }

  lemma DecodersAgree(s: string, x: Bytes, max: nat)
    requires Plain(s) && |s| == 2 * |x| && |x| <= max && Pairs(s, true) == Pairs(s, false) == Some(x)
    ensures FromHexRust(s) == FromHexC(s, max) == FromHexC(s + "\n", max) == Some(x)
  {
    TrimPlain(s);
  }

  // ---------------------------------------------------------------- what decodes, and to what

  predicate HexDigit(c: char) {
    '0' <= c <= '9' || 'a' <= c <= 'f' || 'A' <= c <= 'F'
  }

  /** The character is the digit of value `v`, in either case. */
  predicate Spells(c: char, v: int) {
    || (0 <= v < 10 && c as int == '0' as int + v)
    || (10 <= v < 16 && (c as int + 10 == 'a' as int + v || c as int + 10 == 'A' as int + v))
  }

  lemma DigitValIff(c: char, v: int)
    ensures DigitVal(c) == Some(v) <==> Spells(c, v)
    ensures DigitVal(c).Some? <==> HexDigit(c)
  {
  }

  predicate AllHex(s: string) {
    forall i :: 0 <= i < |s| ==> HexDigit(s[i])
  }

  lemma AllHexLast(s: string)
    requires |s| >= 2
    ensures AllHex(s) <==> AllHex(s[..|s| - 2]) && HexDigit(s[|s| - 2]) && HexDigit(s[|s| - 1])
  {
    var init := s[..|s| - 2];
    assert forall i :: 0 <= i < |init| ==> init[i] == s[i];
  }

  /** A pair that decodes is two digits, in Rust perhaps a sign and a digit, and spells its byte. */
  predicate PairSpells(a: char, b: char, v: Byte, rust: bool) {
    Spells(b, v % 16) && (Spells(a, v / 16) || (rust && a == '+' && v < 16))
  }

  lemma PairIs(a: char, b: char, rust: bool)
    ensures var r := if rust then ByteOfRust(a, b) else ByteOfC(a, b);
            && (r.Some? <==> HexDigit(b) && (HexDigit(a) || (rust && a == '+')))
            && (r.Some? ==> PairSpells(a, b, r.value, rust))
  {
    var r := if rust then ByteOfRust(a, b) else ByteOfC(a, b);
    DigitValIff(a, if r.Some? then r.value / 16 else 0);
    DigitValIff(b, if r.Some? then r.value % 16 else 0);
  }

  lemma {:induction false} PairsIff(s: string)
    requires |s| % 2 == 0
    ensures Pairs(s, false).Some? <==> AllHex(s)
  {
    if s != [] {
      PairsIff(s[..|s| - 2]);
      PairIs(s[|s| - 2], s[|s| - 1], false);
      AllHexLast(s);
    }
  }

  predicate LineEnd(c: char) {
    c == '\n' || c == '\r' || c == ' '
  }

  /** Trailing line ends and spaces go, and nothing else. */
  lemma {:induction false} ChompIs(s: string)
    ensures Chomp(s) <= s
    ensures forall i :: |Chomp(s)| <= i < |s| ==> LineEnd(s[i])
    ensures Chomp(s) != [] ==> !LineEnd(Chomp(s)[|Chomp(s)| - 1])
  {
    if s != [] && LineEnd(s[|s| - 1]) {
      ChompIs(s[..|s| - 1]);
    }
  }

  /** The C decoder takes exactly the even texts of hex digits that fit. */
  lemma DecodesIff(s: string, max: nat)
    ensures FromHexC(s, max).Some? <==>
      |Chomp(s)| % 2 == 0 && |Chomp(s)| <= 2 * max && AllHex(Chomp(s))
  {
    if |Chomp(s)| % 2 == 0 {
      PairsIff(Chomp(s));
    }
  }

  /** And each byte is what its two digits spell. */
  lemma {:induction false} BytesSpell(s: string, rust: bool, i: nat)
    requires |s| % 2 == 0 && Pairs(s, rust).Some? && 2 * i < |s|
    ensures PairSpells(s[2 * i], s[2 * i + 1], Pairs(s, rust).value[i], rust)
  {
    if 2 * i < |s| - 2 {
      BytesSpell(s[..|s| - 2], rust, i);
    } else {
      PairIs(s[|s| - 2], s[|s| - 1], rust);
    }
  }

  /** Pairs of digits, where a plus sign may stand for the first of a pair. */
  predicate AllPairs(s: string) {
    forall i :: 0 <= i < |s| / 2 ==> HexDigit(s[2 * i + 1]) && (HexDigit(s[2 * i]) || s[2 * i] == '+')
  }

  lemma AllPairsLast(s: string)
    requires |s| >= 2 && |s| % 2 == 0
    ensures AllPairs(s) <==>
      AllPairs(s[..|s| - 2]) && HexDigit(s[|s| - 1]) && (HexDigit(s[|s| - 2]) || s[|s| - 2] == '+')
  {
    var init, last := s[..|s| - 2], |s| / 2 - 1;
    assert forall i :: 0 <= i < |init| / 2 ==> init[2 * i] == s[2 * i] && init[2 * i + 1] == s[2 * i + 1];
    assert 2 * last == |s| - 2;
  }

  lemma {:induction false} RustPairsIff(s: string)
    requires |s| % 2 == 0
    ensures Pairs(s, true).Some? <==> AllPairs(s)
  {
    if s != [] {
      RustPairsIff(s[..|s| - 2]);
      PairIs(s[|s| - 2], s[|s| - 1], true);
      AllPairsLast(s);
    }
  }

  predicate Blank(s: string) {
    forall i :: 0 <= i < |s| ==> IsSpace(s[i])
  }

  lemma {:induction false} TrimStartIs(s: string) returns (before: string)
    ensures s == before + TrimStart(s) && Blank(before) && (TrimStart(s) != [] ==> !IsSpace(TrimStart(s)[0]))
  {
    before := [];
    if s != [] && IsSpace(s[0]) {
      var more := TrimStartIs(s[1..]);
      before := [s[0]] + more;
    }
  }

  lemma {:induction false} TrimEndIs(s: string) returns (after: string)
    ensures s == TrimEnd(s) + after && Blank(after)
    ensures TrimEnd(s) != [] ==> !IsSpace(TrimEnd(s)[|TrimEnd(s)| - 1]) && TrimEnd(s)[0] == s[0]
  {
    after := [];
    if s != [] && IsSpace(s[|s| - 1]) {
      var more := TrimEndIs(s[..|s| - 1]);
      after := more + [s[|s| - 1]];
    }
  }

  /** Trimming takes white space off both ends, all of it and nothing else. */
  lemma TrimIs(s: string) returns (before: string, after: string)
    ensures s == before + Trim(s) + after && Blank(before) && Blank(after)
    ensures Trim(s) != [] ==> !IsSpace(Trim(s)[0]) && !IsSpace(Trim(s)[|Trim(s)| - 1])
  {
    before := TrimStartIs(s);
    after := TrimEndIs(TrimStart(s));
  }

  /** The Rust decoder takes exactly the even texts of such pairs, white space around them aside. */
  lemma RustDecodesIff(s: string)
    ensures FromHexRust(s).Some? <==> |Trim(s)| % 2 == 0 && AllPairs(Trim(s))
  {
    if |Trim(s)| % 2 == 0 {
      RustPairsIff(Trim(s));
    }
  }

  // ---------------------------------------------------------------- the C routines

  /** `bytes_to_hex`, without the closing NUL. */
  method BytesToHex(x: Bytes, dst: array<char>)
    requires 2 * |x| <= dst.Length
    modifies dst
    ensures dst[..2 * |x|] == ToHex(x)
  {
    for i := 0 to |x|
      invariant dst[..2 * i] == ToHex(x[..i])
    {
      dst[2 * i] := DigitOf(x[i] / 16);
      dst[2 * i + 1] := DigitOf(x[i] % 16);
      assert x[..i + 1][..i] == x[..i];
      assert dst[..2 * (i + 1)] == dst[..2 * i] + ByteText(x[i]);
    }
    assert x[..|x|] == x;
  }

  /** `hex_to_bytes`: the number of bytes written, or -1. */
  /** The loop over trailing line ends and spaces. */
  method TrimmedLength(s: string) returns (len: nat)
    ensures len <= |s| && s[..len] == Chomp(s)
  {
    len := |s|;
    assert s[..len] == s;
    while len > 0 && (s[len - 1] == '\n' || s[len - 1] == '\r' || s[len - 1] == ' ')
      invariant len <= |s| && Chomp(s[..len]) == Chomp(s)
    {
      assert s[..len][..len - 1] == s[..len - 1];
      len := len - 1;
    }
  }

  method HexToBytes(s: string, dst: array<Byte>) returns (r: int)
    modifies dst
    ensures r == -1 <==> FromHexC(s, dst.Length).None?
    ensures r != -1 ==> 0 <= r <= dst.Length && FromHexC(s, dst.Length) == Some(dst[..r])
  {
    var len := TrimmedLength(s);
    ghost var x := s[..len];
    if len % 2 != 0 || len / 2 > dst.Length { return -1; }
    for i := 0 to len / 2
      invariant Pairs(x[..2 * i], false) == Some(dst[..i])
    {
      PairsTail(x, 2 * i);
      var b := ByteOfC(s[2 * i], s[2 * i + 1]);
      if b.None? { return -1; }
      dst[i] := b.value;
      assert dst[..i + 1] == dst[..i] + [b.value];
    }
    assert x[..len] == x;
    return len / 2;
  }

  /** A pair that does not decode makes the whole text undecodable. */
  lemma {:induction false} PairsTail(x: string, k: nat)
    requires k % 2 == 0 && k + 2 <= |x| && |x| % 2 == 0
    ensures Pairs(x[..k + 2], false).None? ==> Pairs(x, false).None?
    ensures x[..k + 2][..k] == x[..k]
    decreases |x|
  {
    if k + 2 == |x| {
      assert x[..k + 2] == x;
    } else {
      var init := x[..|x| - 2];
      PairsTail(init, k);
      assert init[..k + 2] == x[..k + 2];
    }
  }
}
