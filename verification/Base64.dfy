/**
 Base64 across languages: the Rust encoder of `frost_signer_core`, the C decoder of the
 coordinator, and the public key that travels through both into the certificate.
 */
module Base64 {
  import opened Octets

  type Sextet = v: int | 0 <= v < 64

  /** The alphabet of section 4 of RFC 4648. */
  function CharOf(v: Sextet): (c: char)
    ensures CharVal(c) == v && c != '=' && c != '\n' && c != ' ' && c != '\r'
  {
    if v < 26 then 'A' + v as char
    else if v < 52 then 'a' + (v - 26) as char
    else if v < 62 then '0' + (v - 52) as char
    else if v == 62 then '+'
    else '/'
  }

  /** `b64_char_val`: anything outside the alphabet counts as zero. */
  function CharVal(c: char): Sextet {
    if 'A' <= c <= 'Z' then c as int - 'A' as int
    else if 'a' <= c <= 'z' then c as int - 'a' as int + 26
    else if '0' <= c <= '9' then c as int - '0' as int + 52
    else if c == '+' then 62
    else if c == '/' then 63
    else 0
  }

  // ---------------------------------------------------------------- encoder

  /** The four characters of three bytes; a missing byte counts as zero. */
  function Quad(b0: Byte, b1: Byte, b2: Byte): (r: string)
    ensures |r| == 4
  {
    [CharOf(b0 / 4), CharOf(b0 % 4 * 16 + b1 / 16), CharOf(b1 % 16 * 4 + b2 / 64), CharOf(b2 % 64)]
  }

  /** The characters of up to three bytes: one more than there are bytes. */
  function Group(x: Bytes): (r: string)
    requires 1 <= |x| <= 3
    ensures |r| == |x| + 1
  {
    Quad(x[0], if |x| > 1 then x[1] else 0, if |x| > 2 then x[2] else 0)[..|x| + 1]
  }

  function GroupSize(n: nat): nat {
    if n <= 3 then n else 3
  }

  /** The text without its padding. */
  function Body(x: Bytes): string {
    if x == [] then [] else Group(x[..GroupSize(|x|)]) + Body(x[GroupSize(|x|)..])
  }

  function Padding(n: nat): string {
    if n % 3 == 0 then [] else if n % 3 == 1 then ['=', '='] else ['=']
  }

  function Encode(x: Bytes): string {
    Body(x) + Padding(|x|)
  }

  // ---------------------------------------------------------------- decoder

  /** Trailing padding and newlines are dropped. */
  function Strip(s: string): string {
    if s != [] && (s[|s| - 1] == '=' || s[|s| - 1] == '\n') then Strip(s[..|s| - 1]) else s
  }

  /** The bytes of one group of up to four characters, cut off at `room`. */
  function Ungroup(s: string, room: nat): (r: Bytes)
    requires s != [] && room > 0
    ensures 0 < |r| <= room
  {
    var a := CharVal(s[0]);
    var b := if |s| > 1 then CharVal(s[1]) else 0;
    var c := if |s| > 2 then CharVal(s[2]) else 0;
    var d := if |s| > 3 then CharVal(s[3]) else 0;
    var r0 := [a * 4 + b / 16];
    var r1 := if |s| > 2 && |r0| < room then r0 + [b % 16 * 16 + c / 4] else r0;
    if |s| > 3 && |r1| < room then r1 + [c % 4 * 64 + d] else r1
  }

  function DecodeBody(s: string, room: nat): (r: Option<Bytes>)
    ensures r.Some? ==> |r.value| <= room
    decreases |s|
  {
    if s == [] then Some([])
    else if room == 0 then None
    else
      var head := Ungroup(s, room);
      var rest := DecodeBody(if |s| < 4 then [] else s[4..], room - |head|);
      if rest.None? then None else Some(head + rest.value)
  }

  /** `b64_decode` into a buffer of `max` bytes; `None` is its -1. */
  function Decode(s: string, max: nat): Option<Bytes> {
    DecodeBody(Strip(s), max)
  }

  predicate InAlphabet(c: char) {
    'A' <= c <= 'Z' || 'a' <= c <= 'z' || '0' <= c <= '9' || c == '+' || c == '/'
  }

  /** The same text, with the letter of value zero for every foreign character. */
  predicate Cleaned(s: string, t: string) {
    |t| == |s| && forall i :: 0 <= i < |s| ==> t[i] == if InAlphabet(s[i]) then s[i] else 'A'
  }

  /** A foreign character is not an error: it counts as the letter of value zero. */
  lemma {:induction false} ForeignCountsAsZero(s: string, t: string, room: nat)
    requires Cleaned(s, t)
    ensures DecodeBody(s, room) == DecodeBody(t, room)
    decreases |s|
  {
    if s != [] && room != 0 {
      assert Ungroup(s, room) == Ungroup(t, room);
      if |s| >= 4 {
        ForeignCountsAsZero(s[4..], t[4..], room - |Ungroup(s, room)|);
      }
    }
  }

  // ---------------------------------------------------------------- round trip

  /** The text `s` is the group of `head`, then `tail`. */
  predicate Splits(s: string, head: Bytes, tail: string) {
    1 <= |head| <= 3 && s == Group(head) + tail && (tail != [] ==> |head| == 3)
  }

  /** The sextets behind the characters of a group. */
  lemma GroupValues(x: Bytes)
    requires 1 <= |x| <= 3
    ensures var g := Group(x);
            && CharVal(g[0]) == x[0] / 4
            && CharVal(g[1]) == x[0] % 4 * 16 + (if |x| > 1 then x[1] else 0) / 16
            && (|x| > 1 ==> CharVal(g[2]) == x[1] % 16 * 4 + (if |x| > 2 then x[2] else 0) / 64)
            && (|x| > 2 ==> CharVal(g[3]) == x[2] % 64)
  {
  }

  /** Eight bits are the six and two, four and four, or two and six that neighbouring characters carry. */
  lemma Regroup(a: Byte, b: Byte, c: Byte)
    ensures a / 4 * 4 + (a % 4 * 16 + b / 16) / 16 == a
    ensures (a % 4 * 16 + b / 16) % 16 * 16 + (b % 16 * 4 + c / 64) / 4 == b
    ensures (b % 16 * 4 + c / 64) % 4 * 64 + c % 64 == c
  {
  }

  lemma UngroupInverts(x: Bytes, s: string, tail: string, room: nat)
    requires Splits(s, x, tail) && |x| <= room
    ensures Ungroup(s, room) == x
  {
    GroupValues(x);
    Regroup(x[0], if |x| > 1 then x[1] else 0, if |x| > 2 then x[2] else 0);
    var g := Group(x);
    assert s[0] == g[0] && s[1] == g[1];
    if |x| == 1 {
      assert Ungroup(s, room) == [x[0]];
    } else if |x| == 2 {
      assert s[2] == g[2];
      assert Ungroup(s, room) == [x[0], x[1]];
    } else {
      assert s[2] == g[2] && s[3] == g[3];
      assert Ungroup(s, room) == [x[0], x[1], x[2]];
    }
  }

  lemma DecodeStep(s: string, head: Bytes, tail: string, rest: Bytes, room: nat)
    requires s != [] && 0 < |head| <= room && Ungroup(s, room) == head
    requires tail == (if |s| < 4 then [] else s[4..]) && DecodeBody(tail, room - |head|) == Some(rest)
    ensures DecodeBody(s, room) == Some(head + rest)
  {
  }

  lemma AfterGroup(s: string, head: Bytes, tail: string)
    requires Splits(s, head, tail)
    ensures s != [] && tail == if |s| < 4 then [] else s[4..]
  {
    var g := Group(head);
    assert |g| == |head| + 1;
    if |s| >= 4 {
      assert |head| == 3 && s[4..] == (g + tail)[|g|..];
    }
  }

  /** One group off the front of the text. */
  lemma DecodeGroup(s: string, head: Bytes, tail: string, rest: Bytes, room: nat)
    requires Splits(s, head, tail) && |head| <= room && DecodeBody(tail, room - |head|) == Some(rest)
    ensures DecodeBody(s, room) == Some(head + rest)
  {
    AfterGroup(s, head, tail);
    UngroupInverts(head, s, tail, room);
    DecodeStep(s, head, tail, rest, room);
  }

  /** The first group, the text after it and the bytes after it. */
  lemma BodyParts(x: Bytes) returns (head: Bytes, rest: Bytes)
    requires x != []
    ensures x == head + rest && |rest| < |x| && Splits(Body(x), head, Body(rest))
  {
    head, rest := x[..GroupSize(|x|)], x[GroupSize(|x|)..];
  }

  /** `s` decodes to `x` wherever `x` has room. */
  ghost predicate Spells(s: string, x: Bytes) {
    forall room: nat :: |x| <= room ==> DecodeBody(s, room) == Some(x)
  }

  lemma SpellsMore(s: string, head: Bytes, tail: string, rest: Bytes)
    requires Splits(s, head, tail) && Spells(tail, rest)
    ensures Spells(s, head + rest)
  {
    forall room: nat | |head + rest| <= room ensures DecodeBody(s, room) == Some(head + rest) {
      DecodeGroup(s, head, tail, rest, room);
    }
  }

  lemma {:induction false} BodySpells(x: Bytes)
    ensures Spells(Body(x), x)
    decreases |x|
  {
    if x != [] {
      var head, rest := BodyParts(x);
      BodySpells(rest);
      SpellsMore(Body(x), head, Body(rest), rest);
    }
  }

  lemma DecodeBodyInverts(x: Bytes, room: nat)
    requires |x| <= room
    ensures DecodeBody(Body(x), room) == Some(x)
  {
    BodySpells(x);
  }

  /** Characters that neither padding nor line ends nor spaces can be. */
  predicate Plain(s: string) {
    forall i :: 0 <= i < |s| ==> s[i] != '=' && s[i] != '\n' && s[i] != ' ' && s[i] != '\r'
  }

  lemma GroupPlain(x: Bytes)
    requires 1 <= |x| <= 3
    ensures Plain(Group(x))
  {
  }

  lemma {:induction false} BodyPlain(x: Bytes)
    ensures Plain(Body(x))
    decreases |x|
  {
    if x != [] {
      var k := GroupSize(|x|);
      GroupPlain(x[..k]);
      BodyPlain(x[k..]);
    }
  }

  lemma StripOne(s: string, c: char)
    requires c == '=' || c == '\n'
    ensures Strip(s + [c]) == Strip(s)
  {
    assert (s + [c])[..|s|] == s;
  }

  lemma StripPadding(s: string, n: nat)
    requires Plain(s)
    ensures Strip(s + Padding(n)) == s
  {
    assert Strip(s) == s;
    StripOne(s, '=');
    StripOne(s + ['='], '=');
    assert s + ['='] + ['='] == s + ['=', '='];
    assert s + [] == s;
  }

  /** Whatever fits the buffer comes back exactly. */
  lemma DecodeInvertsEncode(x: Bytes, max: nat)
    requires |x| <= max
    ensures Decode(Encode(x), max) == Some(x)
  {
    BodyPlain(x);
    StripPadding(Body(x), |x|);
    DecodeBodyInverts(x, max);
  }

  // ---------------------------------------------------------------- the routines

  /** The four characters one turn of the encoder pushes. */
  function FourChars(x: Bytes): string
    requires 1 <= |x| <= 3
  {
    Group(x) + Padding(|x|)
  }

  function EncodeFrom(x: Bytes, i: nat): string {
    if i >= |x| then [] else Encode(x[i..])
  }

  /** A group of three, then the text of what follows. */
  lemma EncodeFull(head: Bytes, tail: Bytes)
    requires |head| == 3
    ensures Encode(head + tail) == FourChars(head) + Encode(tail)
  {
    var y := head + tail;
    assert y[..3] == head && y[3..] == tail;
    PaddingPeriod(|tail|);
    Reassociate(Group(head), Body(tail), Padding(|tail|));
    assert FourChars(head) == Group(head) + [];
  }

  lemma PaddingPeriod(n: nat)
    ensures Padding(n + 3) == Padding(n)
  {
  }

  lemma Reassociate(a: string, b: string, c: string)
    ensures a + b + c == (a + []) + (b + c)
  {
  }

  lemma EncodeLast(head: Bytes)
    requires 1 <= |head| <= 3
    ensures Encode(head) == FourChars(head)
  {
    assert head[..|head|] == head && head[|head|..] == [];
    assert Body(head) == Group(head) + [];
  }

  lemma EncodeTurn(x: Bytes, i: nat)
    requires i < |x|
    ensures EncodeFrom(x, i) == FourChars(x[i..i + GroupSize(|x| - i)]) + EncodeFrom(x, i + 3)
  {
    if i + 3 < |x| {
      assert x[i..] == x[i..i + 3] + x[i + 3..];
      EncodeFull(x[i..i + 3], x[i + 3..]);
    } else {
      assert x[i..i + GroupSize(|x| - i)] == x[i..];
      EncodeLast(x[i..]);
    }
  }

  /** The four characters of a group, one by one. */
  lemma GroupPadded(x: Bytes, b0: Byte, b1: Byte, b2: Byte)
    requires 1 <= |x| <= 3 && b0 == x[0]
    requires b1 == (if |x| > 1 then x[1] else 0) && b2 == (if |x| > 2 then x[2] else 0)
    ensures FourChars(x) == [CharOf(b0 / 4), CharOf(b0 % 4 * 16 + b1 / 16),
                             if |x| > 1 then CharOf(b1 % 16 * 4 + b2 / 64) else '=',
                             if |x| > 2 then CharOf(b2 % 64) else '=']
  {
    var q := Quad(b0, b1, b2);
    assert Group(x) == q[..|x| + 1];
  }

  /** The body of the encoder's loop. */
  method PushGroup(x: Bytes, i: nat) returns (four: string)
    requires i < |x|
    ensures four == FourChars(x[i..i + GroupSize(|x| - i)])
  {
    var b0 := x[i];
    var b1 := if i + 1 < |x| then x[i + 1] else 0;
    var b2 := if i + 2 < |x| then x[i + 2] else 0;
    GroupPadded(x[i..i + GroupSize(|x| - i)], b0, b1, b2);
    four := [CharOf(b0 / 4)];
    four := four + [CharOf(b0 % 4 * 16 + b1 / 16)];
    four := four + [if i + 1 < |x| then CharOf(b1 % 16 * 4 + b2 / 64) else '='];
    four := four + [if i + 2 < |x| then CharOf(b2 % 64) else '='];
  }

  /** `base64_encode`. */
  method EncodeLoop(x: Bytes) returns (text: string)
    ensures text == Encode(x)
  {
    text := [];
    var i := 0;
    assert x[0..] == x && (x == [] ==> Encode(x) == []);
    while i < |x|
      invariant 0 <= i && text + EncodeFrom(x, i) == Encode(x)
    {
      EncodeTurn(x, i);
      var four := PushGroup(x, i);
      assert text + (four + EncodeFrom(x, i + 3)) == (text + four) + EncodeFrom(x, i + 3);
      text, i := text + four, i + 3;
    }
    assert text + [] == text;
  }

  function DecodeFrom(done: Bytes, s: string, i: nat, room: nat): Option<Bytes> {
    var rest := DecodeBody(if i <= |s| then s[i..] else [], room);
    if rest.None? then None else Some(done + rest.value)
  }

  lemma DecodeTurn(done: Bytes, s: string, i: nat, room: nat)
    requires i < |s| && room > 0
    ensures var head := Ungroup(s[i..], room);
            DecodeFrom(done, s, i, room) == DecodeFrom(done + head, s, i + 4, room - |head|)
  {
    var y := s[i..];
    var head := Ungroup(y, room);
    var tail := if |y| < 4 then [] else y[4..];
    assert tail == if i + 4 <= |s| then s[i + 4..] else [];
    DecodePrefixed(done, y, head, tail, room);
  }

  lemma DecodePrefixed(done: Bytes, y: string, head: Bytes, tail: string, room: nat)
    requires y != [] && room > 0 && head == Ungroup(y, room) && tail == if |y| < 4 then [] else y[4..]
    ensures var whole, rest := DecodeBody(y, room), DecodeBody(tail, room - |head|);
            && (whole.None? <==> rest.None?)
            && (rest.Some? ==> done + whole.value == (done + head) + rest.value)
  {
    var rest := DecodeBody(tail, room - |head|);
    if rest.Some? {
      assert done + (head + rest.value) == (done + head) + rest.value;
    }
  }

  /** The body of the decoder's loop: up to three bytes written at `j`. */
  method PutGroup(s: string, i: nat, dst: array<Byte>, j: nat) returns (next: nat)
    requires i < |s| && j < dst.Length
    modifies dst
    ensures j < next <= dst.Length && dst[..next] == old(dst[..j]) + Ungroup(s[i..], dst.Length - j)
  {
    var a, b := CharVal(s[i]), if i + 1 < |s| then CharVal(s[i + 1]) else 0;
    var c, d := if i + 2 < |s| then CharVal(s[i + 2]) else 0, if i + 3 < |s| then CharVal(s[i + 3]) else 0;
    next := j;
    dst[next] := a * 4 + b / 16;
    next := next + 1;
    if i + 2 < |s| && next < dst.Length {
      dst[next] := b % 16 * 16 + c / 4;
      next := next + 1;
    }
    if i + 3 < |s| && next < dst.Length {
      dst[next] := c % 4 * 64 + d;
      next := next + 1;
    }
  }

  /** The length without trailing padding and line ends. */
  method Unpadded(text: string) returns (ilen: nat)
    ensures ilen <= |text| && text[..ilen] == Strip(text[..ilen]) == Strip(text)
  {
    ilen := |text|;
    assert text[..ilen] == text;
    while ilen > 0 && (text[ilen - 1] == '=' || text[ilen - 1] == '\n')
      invariant 0 <= ilen <= |text| && Strip(text[..ilen]) == Strip(text)
    {
      StripOne(text[..ilen - 1], text[ilen - 1]);
      assert text[..ilen - 1] + [text[ilen - 1]] == text[..ilen];
      ilen := ilen - 1;
    }
  }

  /** `b64_decode`: the number of bytes written, or -1. */
  method DecodeLoop(text: string, dst: array<Byte>) returns (r: int)
    modifies dst
    ensures r == -1 <==> Decode(text, dst.Length).None?
    ensures r != -1 ==> 0 <= r <= dst.Length && Decode(text, dst.Length) == Some(dst[..r])
  {
    var ilen := Unpadded(text);
    var s := text[..ilen];
    var i, j := 0, 0;
    ghost var whole := Decode(text, dst.Length);
    assert s[0..] == s && (whole.Some? ==> [] + whole.value == whole.value);
    while i < ilen
      invariant 0 <= i && 0 <= j <= dst.Length
      invariant whole == DecodeFrom(dst[..j], s, i, dst.Length - j)
    {
      if j >= dst.Length { return -1; }
      ghost var before, room := dst[..j], dst.Length - j;
      ghost var head := Ungroup(s[i..], room);
      DecodeTurn(before, s, i, room);
      j := PutGroup(s, i, dst, j);
      assert dst[..j] == before + head && dst.Length - j == room - |head|;
      i := i + 4;
    }
    assert dst[..j] + [] == dst[..j];
    return j;
  }

  // ---------------------------------------------------------------- the CA key

  const KEY_TYPE: Bytes := [115, 115, 104, 45, 101, 100, 50, 53, 53, 49, 57]   // "ssh-ed25519"
  const KEY_OFFSET: int := 4 + 11 + 4
  const WIRE_MAX: nat := 256

  /** The public key blob of section 4 of RFC 8709 that `cmd_pubkey` lays out. */
  function KeyBlob(key: Bytes): (r: Bytes)
    requires |key| == 32
    ensures |r| == KEY_OFFSET + 32
  {
    [0, 0, 0, 11] + KEY_TYPE + [0, 0, 0, 32] + key
  }

  function LengthOf(b0: int, b1: int, b2: int, b3: int): int {
    ((b0 * 256 + b1) * 256 + b2) * 256 + b3
  }

  /** A string of section 5 of RFC 4251: four bytes of length, most significant first, then the bytes. */
  function ReadString(b: Bytes, off: nat): Option<(Bytes, nat)> {
    if off + 4 > |b| then None else
    var len := LengthOf(b[off], b[off + 1], b[off + 2], b[off + 3]);
    if off + 4 + len > |b| then None else Some((b[off + 4..off + 4 + len], off + 4 + len))
  }

  /** What a reader of section 4 of RFC 8709 accepts: the name of the algorithm, the key, and nothing more. */
  predicate IsKeyOf(b: Bytes, name: string, key: Bytes) {
    var first := ReadString(b, 0);
    && first.Some? && |first.value.0| == |name|
    && (forall i :: 0 <= i < |name| ==> first.value.0[i] == name[i] as int)
    && ReadString(b, first.value.1) == Some((key, |b|))
  }

  lemma BlobReads(key: Bytes)
    requires |key| == 32
    ensures ReadString(KeyBlob(key), 0) == Some((KEY_TYPE, 15))
    ensures ReadString(KeyBlob(key), 15) == Some((key, |KeyBlob(key)|))
  {
    var b := KeyBlob(key);
    assert b[4..15] == KEY_TYPE && b[19..51] == key;
  }

  lemma NameIsType(x: Bytes)
    requires |x| == 11 && forall i :: 0 <= i < 11 ==> x[i] == "ssh-ed25519"[i] as int
    ensures x == KEY_TYPE
  {
  }

  /** The first string decides the first fifteen bytes, the second one the rest. */
  lemma BlobIsUnique(b: Bytes, key: Bytes)
    requires |key| == 32 && ReadString(b, 0) == Some((KEY_TYPE, 15)) && ReadString(b, 15) == Some((key, |b|))
    ensures b == KeyBlob(key)
  {
    assert b[0] == 0 && b[1] == 0 && b[2] == 0 && b[3] == 11;
    assert b[15] == 0 && b[16] == 0 && b[17] == 0 && b[18] == 32;
    assert b[4..15] == KEY_TYPE && b[19..51] == key && |b| == 51;
    assert b == b[..4] + b[4..15] + b[15..19] + b[19..51];
  }

  /** The blob is the one sequence of bytes that such a reader takes for this key. */
  lemma KeyBlobIff(b: Bytes, key: Bytes)
    requires |key| == 32
    ensures IsKeyOf(b, "ssh-ed25519", key) <==> b == KeyBlob(key)
  {
    BlobReads(key);
    if IsKeyOf(b, "ssh-ed25519", key) {
      NameIsType(ReadString(b, 0).value.0);
      BlobIsUnique(b, key);
    }
  }

  /** The line `cmd_pubkey` prints. */
  function KeyLine(key: Bytes): string
    requires |key| == 32
  {
    "ssh-ed25519 " + Encode(KeyBlob(key)) + " frost-ca\n"
  }

  /** Characters before the first one of `stops`. */
  function UpTo(s: string, stops: set<char>): (r: string)
    ensures |r| <= |s|
  {
    if s == [] || s[0] in stops then [] else [s[0]] + UpTo(s[1..], stops)
  }

  function SecondWord(line: string): Option<string> {
    var text := UpTo(line, {'\r', '\n'});
    var first := UpTo(text, {' '});
    if |first| == |text| then None else Some(UpTo(text[|first| + 1..], {' '}))
  }

  /** `prepare_tbs` after `tbs` returned: the last 32 bytes become the key of the line. */
  function PatchTbs(tbs: Bytes, line: string): Option<Bytes> {
    if |tbs| < 32 then None else
    var word := SecondWord(line);
    if word.None? then None else
    var blob := Decode(word.value, WIRE_MAX);
    if blob.None? || |blob.value| < KEY_OFFSET + 32 then None else
    Some(tbs[..|tbs| - 32] + blob.value[KEY_OFFSET..KEY_OFFSET + 32])
  }

  lemma {:induction false} UpToIs(a: string, stop: char, b: string, stops: set<char>)
    requires stop in stops && forall i :: 0 <= i < |a| ==> a[i] !in stops
    ensures UpTo(a + [stop] + b, stops) == a
  {
    var s := a + [stop] + b;
    if a != [] {
      UpToIs(a[1..], stop, b, stops);
      assert s[1..] == a[1..] + [stop] + b;
      assert [a[0]] + a[1..] == a;
    }
  }

  lemma SecondWordIs(first: string, second: string, third: string)
    requires Plain(first) && Plain(second) && Plain(third)
    ensures SecondWord(first + " " + second + " " + third + "\n") == Some(second)
  {
    var text := first + " " + second + " " + third;
    assert text + "\n" == text + ['\n'] + [];
    forall i | 0 <= i < |text| ensures text[i] !in {'\r', '\n'} {
      var k := i - |first| - 1;
      assert i < |first| ==> text[i] == first[i];
      assert 0 <= k < |second| ==> text[i] == second[k];
      assert 0 <= k - |second| - 1 ==> text[i] == third[k - |second| - 1];
    }
    UpToIs(text, '\n', [], {'\r', '\n'});
    assert text == first + [' '] + (second + " " + third);
    UpToIs(first, ' ', second + " " + third, {' '});
    assert text[|first| + 1..] == second + [' '] + third;
    UpToIs(second, ' ', third, {' '});
  }

  /** The 32 bytes patched over the end of the TBS are the verifying key that `cmd_pubkey` printed. */
  lemma PatchedWithTheKey(tbs: Bytes, key: Bytes)
    requires |key| == 32
    ensures PatchTbs(tbs, KeyLine(key)) == if |tbs| < 32 then None else Some(tbs[..|tbs| - 32] + key)
  {
    var text := Encode(KeyBlob(key));
    assert KeyBlob(key)[KEY_OFFSET..KEY_OFFSET + 32] == key;
    BlobTravels(KeyBlob(key), text);
    assert KeyLine(key) == "ssh-ed25519" + " " + text + " " + "frost-ca" + "\n";
    SecondWordIs("ssh-ed25519", text, "frost-ca");
  }

  /** A blob of whole groups needs no padding, so its text is one word, and it decodes. */
  lemma BlobTravels(blob: Bytes, text: string)
    requires |blob| <= WIRE_MAX && |blob| % 3 == 0 && text == Encode(blob)
    ensures Plain(text) && Decode(text, WIRE_MAX) == Some(blob)
  {
    BodyPlain(blob);
    assert Padding(|blob|) == [] && Body(blob) + [] == Body(blob);
    DecodeInvertsEncode(blob, WIRE_MAX);
  }
}
