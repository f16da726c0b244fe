/**
 The text protocol of `frost_signer_core assemble`: what the C side prints for a commit
 bundle, and what the Rust side makes of it line by line.
 */
module AssembleText {
  import opened Octets
  import opened Bundles
  import opened Hex

  /** Size of the buffer the text is printed into, closing NUL included. */
  const TEXT_MAX: int := MAX_SIGNERS * (COMMIT_ENTRY_MAX * 2 + 16) + MAX_PAYLOAD * 2 + 32

  // ---------------------------------------------------------------- decimals

  function Decimal(n: nat): (r: string)
    ensures r != [] && Plain(r)
  {
    if n < 10 then [DigitOf(n)] else Decimal(n / 10) + [DigitOf(n % 10)]
  }

  function Digits(s: string): Option<nat> {
    if s == [] then Some(0) else
    var init, c := Digits(s[..|s| - 1]), s[|s| - 1];
    if init.None? || !('0' <= c <= '9') then None else Some(init.value * 10 + (c as int - '0' as int))
  }

  /** Rust's `parse::<u16>`: an optional plus sign, then at least one digit, no overflow. */
  function ParseU16(s: string): Option<int> {
    var d := if |s| > 1 && s[0] == '+' then s[1..] else s;
    if d == [] then None else
    var v := Digits(d);
    if v.None? || v.value >= U16_LIMIT then None else Some(v.value)
  }

  lemma {:induction false} DigitsInvert(n: nat)
    ensures Digits(Decimal(n)) == Some(n)
  {
    if n >= 10 {
      DigitsInvert(n / 10);
      var r := Decimal(n);
      assert r[..|r| - 1] == Decimal(n / 10);
    }
  }

  lemma ParseU16Inverts(n: nat)
    requires n < U16_LIMIT
    ensures ParseU16(Decimal(n)) == Some(n)
  {
    DigitsInvert(n);
    assert Decimal(n)[0] != '+';
  }

  function Zeros(k: nat): (r: string)
    ensures |r| == k
  {
    if k == 0 then [] else Zeros(k - 1) + ['0']
  }

  lemma {:induction false} ZerosCountNothing(k: nat, d: string)
    ensures Digits(Zeros(k) + d) == Digits(d)
    decreases |d|, k
  {
    var s := Zeros(k) + d;
    if d != [] {
      ZerosCountNothing(k, d[..|d| - 1]);
      assert s[..|s| - 1] == Zeros(k) + d[..|d| - 1];
    } else if k != 0 {
      ZerosCountNothing(k - 1, []);
      assert s[..|s| - 1] == Zeros(k - 1) + [];
    } else {
      assert s == [];
    }
  }

  lemma {:induction false} DigitsWrite(d: string) returns (k: nat)
    requires d != [] && Digits(d).Some?
    ensures d == Zeros(k) + Decimal(Digits(d).value)
  {
    var init, c := d[..|d| - 1], d[|d| - 1];
    var v := Digits(d).value;
    assert d == init + [c] && DigitOf(v % 10) == c;
    if init == [] {
      k := 0;
    } else {
      k := DigitsWrite(init);
      if v < 10 {
        assert Decimal(0) == ['0'] && Zeros(k + 1) == Zeros(k) + ['0'];
        k := k + 1;
      } else {
        assert v / 10 == Digits(init).value;
      }
    }
  }

  /** The text without one leading plus sign, unless that is all there is. */
  function Unsigned(s: string): string {
    if |s| > 1 && s[0] == '+' then s[1..] else s
  }

  /** A number is read exactly from its decimal digits, with any zeros and at most one plus sign before them. */
  lemma ParsesU16Iff(s: string, v: nat)
    ensures ParseU16(s) == Some(v) <==> v < U16_LIMIT && exists k :: Unsigned(s) == Zeros(k) + Decimal(v)
  {
    var d := Unsigned(s);
    if ParseU16(s) == Some(v) {
      var k := DigitsWrite(d);
    }
    if k :| d == Zeros(k) + Decimal(v) {
      ZerosCountNothing(k, Decimal(v));
      DigitsInvert(v);
    }
  }

  function Pow10(k: nat): nat {
    if k == 0 then 1 else 10 * Pow10(k - 1)
  }

  lemma {:induction false} DecimalLength(n: nat, k: nat)
    requires k > 0 && n < Pow10(k)
    ensures |Decimal(n)| <= k
  {
    if n >= 10 {
      assert k > 1 by {
        assert Pow10(1) == 10 * Pow10(0);
      }
      DecimalLength(n / 10, k - 1);
    }
  }

  lemma DecimalShort(n: nat)
    requires n < U16_LIMIT
    ensures |Decimal(n)| <= 5
  {
    assert Pow10(2) == 100 && Pow10(4) == 10000 && Pow10(5) == 100000;
    DecimalLength(n, 5);
  }

  // ---------------------------------------------------------------- the printed text

  function EntryLine(e: Entry): string
    requires e.id >= 0
  {
    Decimal(e.id) + " " + ToHex(e.commit)
  }

  function EntryText(es: seq<Entry>): string
    requires forall i :: 0 <= i < |es| ==> EntryShape(es[i])
  {
    if es == [] then [] else
    assert EntryShape(es[0]);
    EntryLine(es[0]) + "\n" + EntryText(es[1..])
  }

  function Text(b: Bundle): string
    requires BundleShape(b)
  {
    ToHex(b.tbs) + "\n" + (Decimal(|b.entries|) + "\n" + EntryText(b.entries))
  }

  lemma EntryLineShort(e: Entry)
    requires EntryShape(e) && |e.commit| <= COMMIT_ENTRY_MAX
    ensures |EntryLine(e)| + 1 <= COMMIT_ENTRY_MAX * 2 + 7
  {
    DecimalShort(e.id);
  }

  lemma {:induction false} EntryTextShort(es: seq<Entry>)
    requires forall i :: 0 <= i < |es| ==> EntryShape(es[i]) && |es[i].commit| <= COMMIT_ENTRY_MAX
    ensures |EntryText(es)| <= |es| * (COMMIT_ENTRY_MAX * 2 + 7)
  {
    if es != [] {
      var line, rest := EntryLine(es[0]), EntryText(es[1..]);
      EntryLineShort(es[0]);
      EntryTextShort(es[1..]);
      assert |EntryText(es)| == |line| + 1 + |rest|;
    }
  }

  /** The text and its NUL always fit, so `snprintf` never cuts it. */
  lemma TextNeverTruncated(b: Bundle)
    requires WellFormed(b)
    ensures |Text(b)| + 1 <= TEXT_MAX
  {
    DecimalShort(|b.entries|);
    EntryTextShort(b.entries);
  }

  /** One `snprintf` at the running offset. */
  method PrintAt(dst: array<char>, off: nat, s: string) returns (next: nat)
    requires off + |s| <= dst.Length
    modifies dst
    ensures next == off + |s| && dst[..next] == old(dst[..off]) + s
  {
    for k := 0 to |s|
      invariant dst[..off + k] == old(dst[..off]) + s[..k]
    {
      dst[off + k] := s[k];
      assert dst[..off + k + 1] == dst[..off + k] + [s[k]];
    }
    assert s[..|s|] == s;
    return off + |s|;
  }

  /** The printing loop over the entries. */
  method PrintEntries(dst: array<char>, start: nat, es: seq<Entry>) returns (off: nat)
    requires (forall i :: 0 <= i < |es| ==> EntryShape(es[i])) && start + |EntryText(es)| <= dst.Length
    modifies dst
    ensures off == start + |EntryText(es)| && dst[..off] == old(dst[..start]) + EntryText(es)
  {
    ghost var whole := dst[..start] + EntryText(es);
    off := start;
    assert es[0..] == es;
    for i := 0 to |es|
      invariant off <= dst.Length && whole == dst[..off] + EntryText(es[i..])
    {
      ghost var rest := EntryText(es[i + 1..]);
      var line := EntryLine(es[i]) + "\n";
      assert es[i..][0] == es[i] && es[i..][1..] == es[i + 1..];
      assert whole == dst[..off] + line + rest;
      off := PrintAt(dst, off, line);
    }
    assert whole == dst[..off];
  }

  /** `frost_assemble_signing_package` up to the subprocess, in a buffer of exactly its size. */
  method PrintBundle(b: Bundle, dst: array<char>) returns (off: nat)
    requires WellFormed(b) && dst.Length == TEXT_MAX
    modifies dst
    ensures off < dst.Length && dst[..off] == Text(b)
  {
    TextNeverTruncated(b);
    var head := ToHex(b.tbs) + "\n" + Decimal(|b.entries|) + "\n";
    assert Text(b) == head + EntryText(b.entries);
    off := PrintAt(dst, 0, head);
    off := PrintEntries(dst, off, b.entries);
  }

  // ---------------------------------------------------------------- reading lines

  function LineLength(s: string): (k: nat)
    ensures k <= |s| && (k < |s| ==> s[k] == '\n')
  {
    if s == [] || s[0] == '\n' then 0 else 1 + LineLength(s[1..])
  }

  /** Rust's `read_line`, trimmed; at the end of the input it gives an empty line. */
  function Line(s: string): string {
    Trim(s[..LineLength(s)])
  }

  function Rest(s: string): string {
    if LineLength(s) < |s| then s[LineLength(s) + 1..] else []
  }

  lemma {:induction false} LineLengthIs(a: string, b: string)
    requires '\n' !in a
    ensures LineLength(a + "\n" + b) == |a|
  {
    var s := a + "\n" + b;
    if a != [] {
      assert s[1..] == a[1..] + "\n" + b;
      LineLengthIs(a[1..], b);
    }
  }

  lemma ReadsLine(a: string, b: string)
    requires '\n' !in a
    ensures Line(a + "\n" + b) == Trim(a) && Rest(a + "\n" + b) == b
  {
    var s := a + "\n" + b;
    LineLengthIs(a, b);
    assert s[..|a|] == a && s[|a| + 1..] == b;
  }

  lemma ReadsPlainLine(a: string, b: string)
    requires Plain(a)
    ensures Line(a + "\n" + b) == a && Rest(a + "\n" + b) == b
  {
    ReadsLine(a, b);
    TrimPlain(a);
  }

  // ---------------------------------------------------------------- the parser

  function FirstSpace(s: string): (k: nat)
    ensures k <= |s|
  {
    if s == [] || s[0] == ' ' then 0 else 1 + FirstSpace(s[1..])
  }

  /** Does `SigningCommitments::deserialize` take these bytes? */
  type Decoder = Bytes -> bool

  /** One commitment line, split at its first space; the bytes must decode, and identifier 0 does not exist. */
  function ParseEntry(decodes: Decoder, line: string): Option<(int, Bytes)> {
    var k := FirstSpace(line);
    var id := ParseU16(line[..k]);
    if id.None? || k == |line| then None else
    var commit := FromHexRust(line[k + 1..]);
    if commit.None? || !decodes(commit.value) || id.value == 0 then None else Some((id.value, commit.value))
  }

  type Commitments = map<int, Bytes>

  type LineParser = string -> Option<(int, Bytes)>

  /** `t` lines, each parsed by `parse` and put into the map. */
  function ReadAll(parse: LineParser, s: string, t: nat, acc: Commitments): Option<Commitments>
    decreases t
  {
    if t == 0 then Some(acc) else
    var e := parse(Line(s));
    if e.None? then None else ReadAll(parse, Rest(s), t - 1, acc[e.value.0 := e.value.1])
  }

  function EntryParser(decodes: Decoder): LineParser {
    line => ParseEntry(decodes, line)
  }

  function ParseEntries(decodes: Decoder, s: string, t: nat, acc: Commitments): Option<Commitments> {
    ReadAll(EntryParser(decodes), s, t, acc)
  }

  /** What `assemble` builds the signing package from, or `None` when it exits with an error. */
  function Parse(decodes: Decoder, s: string): Option<(Bytes, Commitments)> {
    if Line(s) == [] then None else
    var tbs := FromHexRust(Line(s));
    var t := ParseU16(Line(Rest(s)));
    if tbs.None? || t.None? || t.value < 0 then None else
    var m := ParseEntries(decodes, Rest(Rest(s)), t.value, map[]);
    if m.None? then None else Some((tbs.value, m.value))
  }

  /** One turn of the loop over the lines. */
  lemma ReadNext(parse: LineParser, s: string, t: nat, acc: Commitments)
    requires t > 0
    ensures var e := parse(Line(s));
            ReadAll(parse, s, t, acc) ==
            if e.None? then None else ReadAll(parse, Rest(s), t - 1, acc[e.value.0 := e.value.1])
  {
  }

  /** The loop of `cmd_assemble` that fills the map, whatever a line holds. */
  method ReadEntries(parse: LineParser, text: string, t: nat) returns (r: Option<Commitments>)
    ensures r == ReadAll(parse, text, t, map[])
  {
    var commitments: Commitments := map[];
    var input, left := text, t;
    ghost var whole := ReadAll(parse, text, t, map[]);
    while left > 0
      invariant whole == ReadAll(parse, input, left, commitments)
    {
      ReadNext(parse, input, left, commitments);
      var e := parse(Line(input));
      if e.None? { return None; }
      commitments := commitments[e.value.0 := e.value.1];
      input, left := Rest(input), left - 1;
    }
    return Some(commitments);
  }

  /** `cmd_assemble` up to the call into the library. */
  method Assemble(decodes: Decoder, text: string) returns (r: Option<(Bytes, Commitments)>)
    ensures r == Parse(decodes, text)
  {
    var line := Line(text);
    if line == [] { return None; }
    var tbs := FromHexRust(line);
    if tbs.None? { return None; }
    var t := ParseU16(Line(Rest(text)));
    if t.None? || t.value < 0 { return None; }
    var m := ReadEntries(EntryParser(decodes), Rest(Rest(text)), t.value);
    if m.None? { return None; }
    return Some((tbs.value, m.value));
  }

  // ---------------------------------------------------------------- agreement

  /** What a line must hold for the parser to take it. */
  predicate Usable(decodes: Decoder, e: Entry) {
    e.id != 0 && e.commit != [] && decodes(e.commit)
  }

  /** The map the entries stand for, later ones replacing earlier ones. */
  function MapOf(es: seq<Entry>, acc: Commitments): Commitments {
    if es == [] then acc else MapOf(es[1..], acc[es[0].id := es[0].commit])
  }

  lemma {:induction false} FirstSpaceIs(a: string, b: string)
    requires Plain(a)
    ensures FirstSpace(a + " " + b) == |a| && FirstSpace(a) == |a|
  {
    if a != [] {
      var s := a + " " + b;
      assert s[1..] == a[1..] + " " + b;
      FirstSpaceIs(a[1..], b);
    }
  }

  /** The line of an entry, as the parser sees it after trimming. */
  lemma EntryLineTrimmed(e: Entry)
    requires e.id >= 0
    ensures '\n' !in EntryLine(e)
    ensures Trim(EntryLine(e)) == if e.commit == [] then Decimal(e.id) else EntryLine(e)
  {
    var s, d, h := EntryLine(e), Decimal(e.id), ToHex(e.commit);
    forall i | 0 <= i < |s| ensures s[i] != '\n' {
      assert i < |d| ==> s[i] == d[i];
      assert i > |d| ==> s[i] == h[i - |d| - 1];
    }
    assert s[0] == d[0];
    assert TrimStart(s) == s;
    if e.commit == [] {
      assert s[..|s| - 1] == d && s[|s| - 1] == ' ';
      assert TrimEnd(s) == TrimEnd(d) == d;
    } else {
      assert s[|s| - 1] == h[|h| - 1];
    }
  }

  lemma ParsesPair(decodes: Decoder, d: string, h: string, id: int, commit: Bytes)
    requires Plain(d) && ParseU16(d) == Some(id) && FromHexRust(h) == Some(commit)
    ensures ParseEntry(decodes, d + " " + h) == if id != 0 && decodes(commit) then Some((id, commit)) else None
    ensures ParseEntry(decodes, d) == None
  {
    var s := d + " " + h;
    FirstSpaceIs(d, h);
    assert s[..|d|] == d && s[|d| + 1..] == h;
  }

  lemma ParsesEntry(decodes: Decoder, e: Entry)
    requires 0 <= e.id < U16_LIMIT
    ensures ParseEntry(decodes, Trim(EntryLine(e))) == if Usable(decodes, e) then Some((e.id, e.commit)) else None
  {
    EntryLineTrimmed(e);
    ParseU16Inverts(e.id);
    HexRoundTrip(e.commit, |e.commit|);
    ParsesPair(decodes, Decimal(e.id), ToHex(e.commit), e.id, e.commit);
  }

  predicate AllUsable(decodes: Decoder, es: seq<Entry>) {
    forall i :: 0 <= i < |es| ==> Usable(decodes, es[i])
  }

  lemma AllUsableSplits(decodes: Decoder, es: seq<Entry>)
    requires es != []
    ensures AllUsable(decodes, es) <==> Usable(decodes, es[0]) && AllUsable(decodes, es[1..])
  {
    assert forall i :: 0 < i < |es| ==> es[i] == es[1..][i - 1];
  }

  function Outcome(decodes: Decoder, e: Entry): Option<(int, Bytes)> {
    if Usable(decodes, e) then Some((e.id, e.commit)) else None
  }

  predicate ReadsLineOf(decodes: Decoder, parse: LineParser, e: Entry) {
    EntryShape(e) && parse(Trim(EntryLine(e))) == Outcome(decodes, e)
  }

  lemma ReadsEntry(decodes: Decoder, parse: LineParser, e: Entry, rest: string, s: string)
    requires ReadsLineOf(decodes, parse, e) && s == EntryLine(e) + "\n" + rest
    ensures parse(Line(s)) == Outcome(decodes, e) && Rest(s) == rest
  {
    EntryLineTrimmed(e);
    ReadsLine(EntryLine(e), rest);
  }

  lemma ReadsFirst(decodes: Decoder, parse: LineParser, s: string, t: nat, acc: Commitments, e: Entry)
    requires t > 0 && parse(Line(s)) == Outcome(decodes, e)
    ensures ReadAll(parse, s, t, acc) ==
            if Usable(decodes, e) then ReadAll(parse, Rest(s), t - 1, acc[e.id := e.commit]) else None
  {
    ReadNext(parse, s, t, acc);
  }

  lemma {:induction false} ReadsAll(decodes: Decoder, parse: LineParser, es: seq<Entry>, acc: Commitments)
    requires forall i :: 0 <= i < |es| ==> EntryShape(es[i])
    requires forall i :: 0 <= i < |es| ==> ReadsLineOf(decodes, parse, es[i])
    ensures ReadAll(parse, EntryText(es), |es|, acc) == if AllUsable(decodes, es) then Some(MapOf(es, acc)) else None
    decreases |es|
  {
    if es != [] {
      var e, tl := es[0], es[1..];
      ReadsEntry(decodes, parse, e, EntryText(tl), EntryText(es));
      AllUsableSplits(decodes, es);
      ReadsAll(decodes, parse, tl, acc[e.id := e.commit]);
      ReadsFirst(decodes, parse, EntryText(es), |es|, acc, e);
    }
  }

  lemma ParsesEntries(decodes: Decoder, es: seq<Entry>)
    requires forall i :: 0 <= i < |es| ==> EntryShape(es[i])
    ensures ParseEntries(decodes, EntryText(es), |es|, map[]) ==
            if AllUsable(decodes, es) then Some(MapOf(es, map[])) else None
  {
    var parse := EntryParser(decodes);
    forall i | 0 <= i < |es| ensures ReadsLineOf(decodes, parse, es[i]) {
      ParsesEntry(decodes, es[i]);
    }
    ReadsAll(decodes, parse, es, map[]);
  }

  /**
   Both sides agree: for every well-formed bundle the parser gets back exactly the message and the
   commitments, unless the message or a commitment is empty, a commitment does not decode or an id is
   zero; then it refuses.
   */
  lemma ParsesWhatIsPrinted(decodes: Decoder, b: Bundle)
    requires WellFormed(b)
    ensures Parse(decodes, Text(b)) ==
            if b.tbs != [] && AllUsable(decodes, b.entries) then Some((b.tbs, MapOf(b.entries, map[]))) else None
  {
    var hex, count, lines := ToHex(b.tbs), Decimal(|b.entries|), EntryText(b.entries);
    ReadsPlainLine(hex, count + "\n" + lines);
    ReadsPlainLine(count, lines);
    HexRoundTrip(b.tbs, |b.tbs|);
    ParseU16Inverts(|b.entries|);
    ParsesEntries(decodes, b.entries);
  }

  // ---------------------------------------------------------------- the map of a bundle

  /** id -> commit as a relation, whatever the order. */
  predicate Holds(es: seq<Entry>, id: int, c: Bytes) {
    exists i :: 0 <= i < |es| && es[i].id == id && es[i].commit == c
  }

  predicate HasId(es: seq<Entry>, id: int) {
    exists i :: 0 <= i < |es| && es[i].id == id
  }

  lemma {:induction false} MapOfIs(es: seq<Entry>, acc: Commitments, id: int)
    requires DistinctIds(es)
    ensures var m := MapOf(es, acc);
            && (id in m <==> HasId(es, id) || id in acc)
            && (id in m ==> if HasId(es, id) then Holds(es, id, m[id]) else m[id] == acc[id])
    decreases |es|
  {
    if es != [] {
      var tl := es[1..];
      var acc2 := acc[es[0].id := es[0].commit];
      MapOfIs(tl, acc2, id);
      assert forall i :: 0 <= i < |tl| ==> tl[i] == es[i + 1];
      assert HasId(es, id) <==> es[0].id == id || HasId(tl, id) by {
        if i :| 0 <= i < |es| && es[i].id == id {
          assert i > 0 ==> tl[i - 1].id == id;
        }
        if i :| 0 <= i < |tl| && tl[i].id == id {
          assert es[i + 1].id == id;
        }
      }
      var m := MapOf(es, acc);
      if HasId(tl, id) && id in m {
        var i :| 0 <= i < |tl| && tl[i].id == id && tl[i].commit == m[id];
        assert es[i + 1].id == id && es[i + 1].commit == m[id];
      } else if es[0].id == id {
        assert Holds(es, id, es[0].commit);
      }
    }
  }

  /** The order of the entries does not matter: both orders give the same package inputs. */
  lemma OrderIsIrrelevant(a: seq<Entry>, b: seq<Entry>)
    requires DistinctIds(a) && DistinctIds(b) && multiset(a) == multiset(b)
    ensures MapOf(a, map[]) == MapOf(b, map[])
  {
    var m, n := MapOf(a, map[]), MapOf(b, map[]);
    forall id ensures (id in m <==> id in n) && (id in m && id in n ==> m[id] == n[id]) {
      MapOfIs(a, map[], id);
      MapOfIs(b, map[], id);
      IdsHeldAlike(a, b, id);
      IdsHeldAlike(b, a, id);
      if id in m && id in n {
        var i :| 0 <= i < |a| && a[i].id == id && a[i].commit == m[id];
        assert a[i] in multiset(b) && a[i] in b;
        var j :| 0 <= j < |b| && b[j].id == id && b[j].commit == n[id];
        var k :| 0 <= k < |b| && b[k] == a[i];
        assert k == j;
      }
    }
    assert m.Keys == n.Keys;
  }

  lemma IdsHeldAlike(a: seq<Entry>, b: seq<Entry>, id: int)
    requires multiset(a) == multiset(b)
    ensures HasId(a, id) ==> HasId(b, id)
  {
    if i :| 0 <= i < |a| && a[i].id == id {
      assert a[i] in multiset(b) && a[i] in b;
      var k :| 0 <= k < |b| && b[k] == a[i];
      assert b[k].id == id;
    }
  }

  /** Permuting the entries of a bundle changes nothing for the signing package. */
  lemma PermutedBundlesAssembleAlike(decodes: Decoder, a: Bundle, b: Bundle)
    requires WellFormed(a) && WellFormed(b) && a.tbs == b.tbs
    requires DistinctIds(a.entries) && DistinctIds(b.entries) && multiset(a.entries) == multiset(b.entries)
    ensures Parse(decodes, Text(a)) == Parse(decodes, Text(b))
  {
    ParsesWhatIsPrinted(decodes, a);
    ParsesWhatIsPrinted(decodes, b);
    OrderIsIrrelevant(a.entries, b.entries);
    UsableEitherWay(decodes, a.entries, b.entries);
    UsableEitherWay(decodes, b.entries, a.entries);
  }

  lemma UsableEitherWay(decodes: Decoder, a: seq<Entry>, b: seq<Entry>)
    requires multiset(a) == multiset(b)
    ensures AllUsable(decodes, a) ==> AllUsable(decodes, b)
  {
    forall i | 0 <= i < |b| && AllUsable(decodes, a) ensures Usable(decodes, b[i]) {
      assert b[i] in multiset(a) && b[i] in a;
    }
  }
}
