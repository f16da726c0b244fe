/**
 The authenticated commit bundle of RELAY_COMMIT: its wire form, the packer and the
 unpacker of `frost_common.h`, and the round trips between them.
 */
module Bundles {
  import opened Octets

  const MAX_PAYLOAD: int := 24000
  const SIG_SIZE: int := 256
  const COMMIT_ENTRY_MAX: int := 256
  const BUNDLE_WIRE_MAX: int := 2 + MAX_SIGNERS * (2 + 2 + COMMIT_ENTRY_MAX + SIG_SIZE) + 2 + MAX_PAYLOAD

  datatype Entry = Entry(id: int, commit: Bytes, sig: Bytes)

  datatype Bundle = Bundle(entries: seq<Entry>, tbs: Bytes)

  /** What the C field types admit, whatever the values. */
  predicate EntryShape(e: Entry) {
    0 <= e.id < U16_LIMIT && |e.commit| < U16_LIMIT && |e.sig| == SIG_SIZE
  }

  predicate BundleShape(b: Bundle) {
    && |b.entries| <= MAX_SIGNERS
    && |b.tbs| < U16_LIMIT
    && forall i :: 0 <= i < |b.entries| ==> EntryShape(b.entries[i])
  }

  /** A bundle whose fields also respect the size limits. */
  predicate WellFormed(b: Bundle) {
    && BundleShape(b)
    && |b.tbs| <= MAX_PAYLOAD
    && forall i :: 0 <= i < |b.entries| ==> |b.entries[i].commit| <= COMMIT_ENTRY_MAX
  }

  predicate DistinctIds(es: seq<Entry>) {
    forall i, j :: 0 <= i < j < |es| ==> es[i].id != es[j].id
  }

  // ---------------------------------------------------------------- wire form

  function PackEntry(e: Entry): (r: Bytes)
    requires EntryShape(e)
    ensures |r| == 4 + |e.commit| + SIG_SIZE
  {
    PutU16(e.id) + PutU16(|e.commit|) + e.commit + e.sig
  }

  function PackEntries(es: seq<Entry>): Bytes
    requires forall i :: 0 <= i < |es| ==> EntryShape(es[i])
  {
    if es == [] then [] else PackEntry(es[0]) + PackEntries(es[1..])
  }

  function PackTbs(tbs: Bytes): Bytes
    requires |tbs| < U16_LIMIT
  {
    PutU16(|tbs|) + tbs
  }

  function Pack(b: Bundle): Bytes
    requires BundleShape(b)
  {
    PutU16(|b.entries|) + PackEntries(b.entries) + PackTbs(b.tbs)
  }

  function EntriesLen(es: seq<Entry>): (len: nat)
  {
    if es == [] then 0 else 4 + |es[0].commit| + SIG_SIZE + EntriesLen(es[1..])
  }

  function PackedLen(b: Bundle): nat {
    4 + EntriesLen(b.entries) + |b.tbs|
  }

  lemma {:induction false} PackEntriesLen(es: seq<Entry>)
    requires forall i :: 0 <= i < |es| ==> EntryShape(es[i])
    ensures |PackEntries(es)| == EntriesLen(es)
  {
    if es != [] {
      PackEntriesLen(es[1..]);
    }
  }

  lemma {:induction false} EntriesLenBound(es: seq<Entry>)
    requires forall i :: 0 <= i < |es| ==> |es[i].commit| <= COMMIT_ENTRY_MAX
    ensures EntriesLen(es) <= |es| * (4 + COMMIT_ENTRY_MAX + SIG_SIZE)
  {
    if es != [] {
      EntriesLenBound(es[1..]);
    }
  }

  /** The scratch buffer the callers allocate always holds a well-formed bundle. */
  lemma WireMaxSuffices(b: Bundle)
    requires WellFormed(b)
    ensures |Pack(b)| == PackedLen(b) <= BUNDLE_WIRE_MAX
  {
    PackEntriesLen(b.entries);
    EntriesLenBound(b.entries);
  }

  // ---------------------------------------------------------------- parser

  datatype Parsed<T> = Reject | Accept(value: T, next: nat)

  /** One entry starting at `off`. */
  function UnpackEntry(src: Bytes, off: nat): (r: Parsed<Entry>)
    ensures r.Accept? ==> off < r.next <= |src|
  {
    if off + 4 > |src| then Reject else
    var len := GetU16(src[off + 2], src[off + 3]);
    if len > COMMIT_ENTRY_MAX || off + 4 + len + SIG_SIZE > |src| then Reject else
    Accept(Entry(GetU16(src[off], src[off + 1]),
                 src[off + 4..off + 4 + len],
                 src[off + 4 + len..off + 4 + len + SIG_SIZE]),
           off + 4 + len + SIG_SIZE)
  }

  function UnpackEntries(src: Bytes, off: nat, n: nat): (r: Parsed<seq<Entry>>)
    requires off <= |src|
    ensures r.Accept? ==> off <= r.next <= |src| && |r.value| == n
    decreases n
  {
    if n == 0 then Accept([], off) else
    var e := UnpackEntry(src, off);
    if e.Reject? then Reject else
    var rest := UnpackEntries(src, e.next, n - 1);
    if rest.Reject? then Reject else Accept([e.value] + rest.value, rest.next)
  }

  function UnpackTbs(src: Bytes, off: nat): (r: Parsed<Bytes>)
    requires off <= |src|
    ensures r.Accept? ==> off < r.next <= |src|
  {
    if off + 2 > |src| then Reject else
    var len := GetU16(src[off], src[off + 1]);
    if len > MAX_PAYLOAD || off + 2 + len > |src| then Reject else
    Accept(src[off + 2..off + 2 + len], off + 2 + len)
  }

  function Unpack(src: Bytes): (r: Parsed<Bundle>)
    ensures r.Accept? ==> r.next <= |src|
  {
    if |src| < 2 then Reject else
    var n := GetU16(src[0], src[1]);
    if n > MAX_SIGNERS then Reject else
    var es := UnpackEntries(src, 2, n);
    if es.Reject? then Reject else
    var tbs := UnpackTbs(src, es.next);
    if tbs.Reject? then Reject else Accept(Bundle(es.value, tbs.value), tbs.next)
  }

  // ---------------------------------------------------------------- round trips

  /** `part` stands in `src` at `off`. */
  predicate At(src: Bytes, off: nat, part: Bytes) {
    off + |part| <= |src| && src[off..off + |part|] == part
  }

  lemma AtSplit(src: Bytes, off: nat, a: Bytes, b: Bytes)
    requires At(src, off, a + b)
    ensures At(src, off, a) && At(src, off + |a|, b)
  {
    var whole := src[off..off + |a| + |b|];
    assert whole[..|a|] == a && whole[|a|..] == b;
  }

  lemma UnpackEntryInverts(src: Bytes, off: nat, e: Entry)
    requires EntryShape(e) && |e.commit| <= COMMIT_ENTRY_MAX && At(src, off, PackEntry(e))
    ensures UnpackEntry(src, off) == Accept(e, off + |PackEntry(e)|)
  {
    var id, len := PutU16(e.id), PutU16(|e.commit|);
    AtSplit(src, off, id + len + e.commit, e.sig);
    AtSplit(src, off, id + len, e.commit);
    AtSplit(src, off, id, len);
    assert src[off] == id[0] && src[off + 1] == id[1];
    assert src[off + 2] == len[0] && src[off + 3] == len[1];
  }

  lemma {:induction false} UnpackEntriesInverts(src: Bytes, off: nat, es: seq<Entry>)
    requires forall i :: 0 <= i < |es| ==> EntryShape(es[i]) && |es[i].commit| <= COMMIT_ENTRY_MAX
    requires At(src, off, PackEntries(es))
    ensures UnpackEntries(src, off, |es|) == Accept(es, off + |PackEntries(es)|)
    decreases |es|
  {
    if es != [] {
      var e, tl := es[0], es[1..];
      AtSplit(src, off, PackEntry(e), PackEntries(tl));
      UnpackEntryInverts(src, off, e);
      var next := off + |PackEntry(e)|;
      UnpackEntriesInverts(src, next, tl);
      UnpackMore(src, off, |es|, e, next, tl, next + |PackEntries(tl)|);
      assert [e] + tl == es;
    }
  }

  lemma UnpackMore(src: Bytes, off: nat, n: nat, e: Entry, next: nat, rest: seq<Entry>, end: nat)
    requires n > 0 && off <= |src| && next <= |src| && UnpackEntry(src, off) == Accept(e, next)
    requires UnpackEntries(src, next, n - 1) == Accept(rest, end)
    ensures UnpackEntries(src, off, n) == Accept([e] + rest, end)
  {
  }

  lemma UnpackTbsInverts(src: Bytes, off: nat, tbs: Bytes)
    requires |tbs| <= MAX_PAYLOAD && At(src, off, PackTbs(tbs))
    ensures UnpackTbs(src, off) == Accept(tbs, off + |PackTbs(tbs)|)
  {
    var len := PutU16(|tbs|);
    AtSplit(src, off, len, tbs);
    assert src[off] == len[0] && src[off + 1] == len[1];
  }

  /** Parsing a packed bundle gives it back, and stops exactly where it ends. */
  lemma UnpackInvertsPack(b: Bundle, post: Bytes)
    requires WellFormed(b)
    ensures Unpack(Pack(b) + post) == Accept(b, |Pack(b)|)
  {
    assert At(Pack(b) + post, 0, Pack(b));
    UnpacksAtStart(Pack(b) + post, b);
  }

  lemma UnpacksAtStart(src: Bytes, b: Bundle)
    requires WellFormed(b) && At(src, 0, Pack(b))
    ensures Unpack(src) == Accept(b, |Pack(b)|)
  {
    var mid := 2 + |PackEntries(b.entries)|;
    var end := mid + |PackTbs(b.tbs)|;
    BundleParts(src, b);
    UnpackEntriesInverts(src, 2, b.entries);
    UnpackTbsInverts(src, mid, b.tbs);
    UnpackIs(src, b, mid, end);
    assert |Pack(b)| == end;
  }

  /** The three parts of a bundle, read one after the other. */
  lemma UnpackIs(src: Bytes, b: Bundle, mid: nat, end: nat)
    requires |src| >= 2 && GetU16(src[0], src[1]) == |b.entries| <= MAX_SIGNERS
    requires UnpackEntries(src, 2, |b.entries|) == Accept(b.entries, mid) && UnpackTbs(src, mid) == Accept(b.tbs, end)
    ensures Unpack(src) == Accept(b, end)
  {
  }

  lemma BundleParts(src: Bytes, b: Bundle)
    requires WellFormed(b) && At(src, 0, Pack(b))
    ensures |src| >= 2 && GetU16(src[0], src[1]) == |b.entries|
    ensures At(src, 2, PackEntries(b.entries)) && At(src, 2 + |PackEntries(b.entries)|, PackTbs(b.tbs))
  {
    var hdr, es, tbs := PutU16(|b.entries|), PackEntries(b.entries), PackTbs(b.tbs);
    AtSplit(src, 0, hdr + es, tbs);
    AtSplit(src, 0, hdr, es);
    assert src[0] == hdr[0] && src[1] == hdr[1];
  }

  lemma PackInvertsUnpackEntry(src: Bytes, off: nat)
    requires UnpackEntry(src, off).Accept?
    ensures var r := UnpackEntry(src, off);
            && EntryShape(r.value) && |r.value.commit| <= COMMIT_ENTRY_MAX
            && src[off..r.next] == PackEntry(r.value)
  {
    var r := UnpackEntry(src, off);
    var len := |r.value.commit|;
    assert src[off..off + 2] == PutU16(r.value.id);
    assert src[off + 2..off + 4] == PutU16(len);
    assert src[off..r.next] == src[off..off + 2] + src[off + 2..off + 4]
      + src[off + 4..off + 4 + len] + src[off + 4 + len..r.next];
  }

  lemma {:induction false} PackInvertsUnpackEntries(src: Bytes, off: nat, n: nat)
    requires off <= |src| && UnpackEntries(src, off, n).Accept?
    ensures var r := UnpackEntries(src, off, n);
            && (forall i :: 0 <= i < n ==> EntryShape(r.value[i]) && |r.value[i].commit| <= COMMIT_ENTRY_MAX)
            && src[off..r.next] == PackEntries(r.value)
    decreases n
  {
    if n != 0 {
      var e := UnpackEntry(src, off);
      var r, rest := UnpackEntries(src, off, n), UnpackEntries(src, e.next, n - 1);
      PackInvertsUnpackEntry(src, off);
      PackInvertsUnpackEntries(src, e.next, n - 1);
      assert r.value[1..] == rest.value;
      assert src[off..r.next] == src[off..e.next] + src[e.next..r.next];
    }
  }

  lemma PackInvertsUnpackTbs(src: Bytes, off: nat)
    requires off <= |src| && UnpackTbs(src, off).Accept?
    ensures var r := UnpackTbs(src, off);
            |r.value| <= MAX_PAYLOAD && src[off..r.next] == PackTbs(r.value)
  {
    var r := UnpackTbs(src, off);
    assert src[off..off + 2] == PutU16(|r.value|);
    assert src[off..r.next] == src[off..off + 2] + src[off + 2..r.next];
  }

  /** The parser accepts nothing but packed bundles: re-packing gives the consumed prefix. */
  lemma PackInvertsUnpack(src: Bytes)
    requires Unpack(src).Accept?
    ensures WellFormed(Unpack(src).value)
    ensures Pack(Unpack(src).value) == src[..Unpack(src).next]
  {
    var n := GetU16(src[0], src[1]);
    var es, r := UnpackEntries(src, 2, n), Unpack(src);
    PackInvertsUnpackEntries(src, 2, n);
    PackInvertsUnpackTbs(src, es.next);
    assert src[..2] == PutU16(n);
    assert src[..r.next] == src[..2] + src[2..es.next] + src[es.next..r.next];
  }

  /** Packing is injective on well-formed bundles, even with trailing bytes. */
  lemma PackInjective(a: Bundle, b: Bundle, restA: Bytes, restB: Bytes)
    requires WellFormed(a) && WellFormed(b)
    requires Pack(a) + restA == Pack(b) + restB
    ensures a == b
  {
    UnpackInvertsPack(a, restA);
    UnpackInvertsPack(b, restB);
  }

  // ---------------------------------------------------------------- the C routines

  /** `memcpy(dst + off, data, |data|)`. */
  method CopyInto(dst: array<Byte>, off: nat, data: Bytes)
    requires off + |data| <= dst.Length
    modifies dst
    ensures dst[..off] == old(dst[..off])
    ensures dst[off..off + |data|] == data
    ensures dst[..off + |data|] == old(dst[..off]) + data
  {
    var k := 0;
    while k < |data|
      invariant 0 <= k <= |data|
      invariant dst[..off] == old(dst[..off])
      invariant dst[off..off + k] == data[..k]
    {
      dst[off + k] := data[k];
      k := k + 1;
      assert dst[off..off + k] == dst[off..off + k - 1] + [data[k - 1]];
    }
    assert data[..|data|] == data;
    assert dst[..off + |data|] == dst[..off] + dst[off..off + |data|];
  }

  method WriteU16(dst: array<Byte>, off: nat, x: int)
    requires 0 <= x < U16_LIMIT && off + 2 <= dst.Length
    modifies dst
    ensures dst[..off + 2] == old(dst[..off]) + PutU16(x)
  {
    CopyInto(dst, off, PutU16(x));
  }

  /** One iteration of the packer's loop: the entry's wire form, or -1 when it does not fit. */
  method PackOne(dst: array<Byte>, off: nat, e: Entry) returns (r: int)
    requires EntryShape(e) && off <= dst.Length
    modifies dst
    ensures r == -1 <==> (|e.commit| > COMMIT_ENTRY_MAX || off + |PackEntry(e)| > dst.Length)
    ensures r != -1 ==> r == off + |PackEntry(e)| && dst[..r] == old(dst[..off]) + PackEntry(e)
  {
    if off + 2 + 2 > dst.Length { return -1; }
    WriteU16(dst, off, e.id);
    WriteU16(dst, off + 2, |e.commit|);
    if |e.commit| > COMMIT_ENTRY_MAX { return -1; }
    if off + 4 + |e.commit| > dst.Length { return -1; }
    CopyInto(dst, off + 4, e.commit);
    if off + 4 + |e.commit| + SIG_SIZE > dst.Length { return -1; }
    CopyInto(dst, off + 4 + |e.commit|, e.sig);
    return off + 4 + |e.commit| + SIG_SIZE;
  }

  predicate CommitsFit(es: seq<Entry>) {
    forall i :: 0 <= i < |es| ==> |es[i].commit| <= COMMIT_ENTRY_MAX
  }

  /** The packer's loop over the entries. */
  method PackAll(dst: array<Byte>, start: nat, es: seq<Entry>) returns (r: int)
    requires start <= dst.Length && forall i :: 0 <= i < |es| ==> EntryShape(es[i])
    modifies dst
    ensures r == -1 <==> (!CommitsFit(es) || start + |PackEntries(es)| > dst.Length)
    ensures r != -1 ==> r == start + |PackEntries(es)| && dst[..r] == old(dst[..start]) + PackEntries(es)
  {
    ghost var whole := dst[..start] + PackEntries(es);
    var off, i := start, 0;
    assert es[0..] == es;
    while i < |es|
      invariant 0 <= i <= |es| && off <= dst.Length
      invariant CommitsFit(es[..i])
      invariant whole == dst[..off] + PackEntries(es[i..])
    {
      ghost var rest := PackEntries(es[i + 1..]);
      assert es[i..][0] == es[i] && es[i..][1..] == es[i + 1..];
      assert whole == dst[..off] + PackEntry(es[i]) + rest;
      var next := PackOne(dst, off, es[i]);
      if next == -1 { return -1; }
      assert whole == dst[..next] + rest;
      off, i := next, i + 1;
    }
    assert es[..|es|] == es;
    assert whole == dst[..off];
    return off;
  }

  /** The length-prefixed TBS that closes the wire form. */
  method PackTail(dst: array<Byte>, off: nat, tbs: Bytes) returns (r: int)
    requires |tbs| < U16_LIMIT && off <= dst.Length
    modifies dst
    ensures r == -1 <==> (|tbs| > MAX_PAYLOAD || off + |PackTbs(tbs)| > dst.Length)
    ensures r != -1 ==> r == off + |PackTbs(tbs)| && dst[..r] == old(dst[..off]) + PackTbs(tbs)
  {
    if off + 2 > dst.Length { return -1; }
    WriteU16(dst, off, |tbs|);
    if |tbs| > MAX_PAYLOAD || off + 2 + |tbs| > dst.Length { return -1; }
    CopyInto(dst, off + 2, tbs);
    return off + 2 + |tbs|;
  }

  /**
   `frost_pack_commit_bundle`: fills `dst` and returns the length, or -1. It fails exactly
   when a field is over its limit or the whole wire form does not fit.
   */
  method PackBundle(dst: array<Byte>, b: Bundle) returns (r: int)
    requires BundleShape(b)
    modifies dst
    ensures r == -1 || (0 <= r <= dst.Length && dst[..r] == Pack(b))
    ensures r == -1 <==> (!WellFormed(b) || |Pack(b)| > dst.Length)
  {
    if 2 > dst.Length { return -1; }
    WriteU16(dst, 0, |b.entries|);
    r := PackAll(dst, 2, b.entries);
    if r != -1 {
      r := PackTail(dst, r, b.tbs);
    }
  }

  /** One iteration of the unpacker's loop. */
  method UnpackOne(src: array<Byte>, off: nat) returns (r: int, e: Entry)
    ensures r == -1 <==> UnpackEntry(src[..], off).Reject?
    ensures r != -1 ==> 0 <= r && UnpackEntry(src[..], off) == Accept(e, r)
  {
    e := Entry(0, [], []);
    if off + 4 > src.Length { return -1, e; }
    var len := GetU16(src[off + 2], src[off + 3]);
    if len > COMMIT_ENTRY_MAX { return -1, e; }
    if off + 4 + len > src.Length { return -1, e; }
    if off + 4 + len + SIG_SIZE > src.Length { return -1, e; }
    e := Entry(GetU16(src[off], src[off + 1]), src[off + 4..off + 4 + len],
               src[off + 4 + len..off + 4 + len + SIG_SIZE]);
    return off + 4 + len + SIG_SIZE, e;
  }

  /** With `done` read and `left` entries to read at `off`, the whole list reads as `whole`. */
  predicate Reading(whole: Parsed<seq<Entry>>, s: Bytes, off: nat, left: nat, done: seq<Entry>) {
    && off <= |s|
    && var rest := UnpackEntries(s, off, left);
       whole == if rest.Reject? then Reject else Accept(done + rest.value, rest.next)
  }

  lemma ReadStart(s: Bytes, off: nat, n: nat)
    requires off <= |s|
    ensures Reading(UnpackEntries(s, off, n), s, off, n, [])
  {
    var whole := UnpackEntries(s, off, n);
    assert whole.Accept? ==> [] + whole.value == whole.value;
  }

  /** One turn of the loop over the entries. */
  lemma ReadOne(whole: Parsed<seq<Entry>>, s: Bytes, off: nat, left: nat, done: seq<Entry>)
    requires left > 0 && Reading(whole, s, off, left, done)
    ensures var e := UnpackEntry(s, off);
            if e.Reject? then whole.Reject? else Reading(whole, s, e.next, left - 1, done + [e.value])
  {
    var e := UnpackEntry(s, off);
    if e.Accept? {
      var rest := UnpackEntries(s, e.next, left - 1);
      if rest.Accept? {
        assert done + ([e.value] + rest.value) == done + [e.value] + rest.value;
      }
    }
  }

  lemma ReadEnd(whole: Parsed<seq<Entry>>, s: Bytes, off: nat, done: seq<Entry>)
    requires Reading(whole, s, off, 0, done)
    ensures whole == Accept(done, off)
  {
    assert done + [] == done;
  }

  /** The unpacker's loop over the entries. */
  method UnpackAll(src: array<Byte>, start: nat, n: nat) returns (r: int, entries: seq<Entry>)
    requires start <= src.Length
    ensures r == -1 <==> UnpackEntries(src[..], start, n).Reject?
    ensures r != -1 ==> 0 <= r && UnpackEntries(src[..], start, n) == Accept(entries, r)
  {
    entries := [];
    var off, left := start, n;
    ghost var whole := UnpackEntries(src[..], start, n);
    ReadStart(src[..], start, n);
    while left > 0
      invariant 0 <= off && Reading(whole, src[..], off, left, entries)
    {
      ReadOne(whole, src[..], off, left, entries);
      var next, e := UnpackOne(src, off);
      if next == -1 { return -1, entries; }
      entries := entries + [e];
      off, left := next, left - 1;
    }
    ReadEnd(whole, src[..], off, entries);
    return off, entries;
  }

  /** `frost_unpack_commit_bundle`: reads `src` and returns the bytes consumed, or -1. */
  method UnpackBundle(src: array<Byte>) returns (r: int, b: Bundle)
    ensures r == -1 <==> Unpack(src[..]).Reject?
    ensures r != -1 ==> 0 <= r && Unpack(src[..]) == Accept(b, r)
  {
    b := Bundle([], []);
    if 2 > src.Length { return -1, b; }
    var n := GetU16(src[0], src[1]);
    if n > MAX_SIGNERS { return -1, b; }
    var off, entries := UnpackAll(src, 2, n);
    if off == -1 { return -1, b; }
    if off + 2 > src.Length { return -1, b; }
    var len := GetU16(src[off], src[off + 1]);
    off := off + 2;
    if len > MAX_PAYLOAD || off + len > src.Length { return -1, b; }
    b := Bundle(entries, src[off..off + len]);
    return off + len, b;
  }
}
