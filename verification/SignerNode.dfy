/** The signer's global variables and the handlers that update them, against SignerModel. */
module SignerNode {
  import opened Octets
  import opened Bundles
  import opened SignerModel

  /** `build_commit_sign_buf`: fills `dst` and returns the length, or -1 when it is too small. */
  method BuildCommitSignBuf(tbs: Bytes, commit: Bytes, dst: array<Byte>) returns (r: int)
    requires |tbs| < U16_LIMIT
    modifies dst
    ensures r == -1 <==> 2 + |tbs| + |commit| > dst.Length
    ensures r != -1 ==> 0 <= r <= dst.Length && dst[..r] == SignBuf(tbs, commit)
  {
    if 2 + |tbs| + |commit| > dst.Length { return -1; }
    WriteU16(dst, 0, |tbs|);
    CopyInto(dst, 2, tbs);
    CopyInto(dst, 2 + |tbs|, commit);
    return 2 + |tbs| + |commit|;
  }

  /** The two nested loops that look for a repeated id. */
  method HasDuplicateId(es: seq<Entry>) returns (dup: bool)
    ensures dup <==> !DistinctIds(es)
  {
    for i := 0 to |es|
      invariant forall x, y :: 0 <= x < y < |es| && x < i ==> es[x].id != es[y].id
    {
      for j := i + 1 to |es|
        invariant forall y :: i < y < j ==> es[i].id != es[y].id
      {
        if es[i].id == es[j].id { return true; }
      }
    }
    return false;
  }

  class SignerNode {
    const id: Id
    var t: int
    var hasKey: bool
    var signMode: bool
    var state: State
    var tbs: Bytes
    var nonces: Bytes
    var commit: Bytes
    var precomputed: bool
    var outq: seq<UpMsg>
    ghost var log: Log

    ghost function Value(): Node
      reads this
    {
      Node(id, t, hasKey, signMode, state, tbs, nonces, commit, precomputed, log)
    }

    constructor (id: Id, t: int)
      ensures Value() == NewNode(id, t) && outq == []
    {
      this.id := id;
      this.t := t;
      hasKey, signMode, state := false, false, Idle;
      tbs, nonces, commit, precomputed := [], [], [], false;
      outq := [];
      log := Log([], [], [], []);
    }

    /** Wipe the nonces, then call `frost_commit`. */
    method Regenerate(made: CommitResult) returns (ok: bool)
      modifies this`nonces, this`commit, this`log
      ensures ok <==> made.Made?
      ensures Value() == Generate(old(Value()), made)
    {
      nonces := [];
      match made
      case Made(nonce, c) =>
        nonces, commit := nonce, c;
        log := log.(generated := log.generated + [(nonce, c)]);
        return true;
      case Broken(garbage) =>
        commit := garbage;
        return false;
    }

    /** Sign the length-prefixed buffer and queue COMMIT. */
    method SendCommit(sig: Bytes)
      requires |tbs| <= MAX_PAYLOAD
      modifies this`outq, this`precomputed, this`log
      ensures Value() == SignCommit(old(Value()), sig).nd
      ensures outq == old(outq) + SignCommit(old(Value()), sig).out
    {
      var buf := new Byte[SIGN_BUF_MAX](_ => 0);
      var len := BuildCommitSignBuf(tbs, commit, buf);
      if len < 0 { return; }
      outq := outq + [CommitMsg(commit, sig)];
      precomputed := false;
      log := log.(signed := log.signed + [(commit, tbs)]);
    }

    method HandleSignReq(payload: Bytes, o: Oracle)
      modifies this
      ensures Value() == OnSignReq(old(Value()), payload, o).nd
      ensures outq == old(outq) + OnSignReq(old(Value()), payload, o).out
    {
      if !hasKey {
        if !o.loads {
          outq := outq + [LoadFailMsg];
          return;
        }
        hasKey := true;
      }
      if |payload| > MAX_PAYLOAD { return; }
      tbs := payload;
      log := log.(requested := log.requested + [payload]);
      state := Signing;
      if !precomputed {
        var ok := Regenerate(o.made);
        if !ok { return; }
      }
      SendCommit(o.sig);
    }

    /** The loop over the entries: all authentic, and my own as I made it. */
    method VerifyEntries(b: Bundle, valid: Signatures) returns (ok: bool)
      requires |b.tbs| <= MAX_PAYLOAD
      ensures ok <==>
        && (forall i :: 0 <= i < |b.entries| ==> Authentic(b.entries[i], b.tbs, valid))
        && (forall i :: 0 <= i < |b.entries| && b.entries[i].id == id ==> b.entries[i].commit == commit)
        && (exists i :: 0 <= i < |b.entries| && b.entries[i].id == id)
    {
      var sawSelf := false;
      for i := 0 to |b.entries|
        invariant forall k :: 0 <= k < i ==> Authentic(b.entries[k], b.tbs, valid)
        invariant forall k :: 0 <= k < i && b.entries[k].id == id ==> b.entries[k].commit == commit
        invariant sawSelf <==> exists k :: 0 <= k < i && b.entries[k].id == id
      {
        var e := b.entries[i];
        var buf := new Byte[SIGN_BUF_MAX](_ => 0);
        var len := BuildCommitSignBuf(b.tbs, e.commit, buf);
        if len < 0 { return false; }
        if (e.id, buf[..len], e.sig) !in valid { return false; }
        if e.id == id {
          sawSelf := true;
          if e.commit != commit { return false; }
        }
      }
      return sawSelf;
    }

    /** Everything a bundle must pass before anything is signed. */
    method CheckBundle(payload: array<Byte>, valid: Signatures) returns (ok: bool, b: Bundle)
      ensures ok <==> Accepts(Value(), payload[..], valid)
      ensures ok ==> b == Unpack(payload[..]).value
    {
      ok, b := false, Bundle([], []);
      if !hasKey { return; }
      var n;
      n, b := UnpackBundle(payload);
      if n < 0 { return; }
      PackInvertsUnpack(payload[..]);
      if |b.entries| != t { return; }
      var dup := HasDuplicateId(b.entries);
      if dup { return; }
      var authentic := VerifyEntries(b, valid);
      ok := authentic && b.tbs == tbs;
    }

    method HandleRelayCommit(payload: array<Byte>, valid: Signatures, o: Oracle)
      modifies this
      ensures Value() == OnRelayCommit(old(Value()), payload[..], valid, o).nd
      ensures outq == old(outq) + OnRelayCommit(old(Value()), payload[..], valid, o).out
    {
      var ok, b := CheckBundle(payload, valid);
      if !ok { return; }
      if !o.assembled || nonces == [] || o.share.None? { return; }
      outq := outq + [ShareMsg(o.share.value)];
      log := log.(shares := log.shares + [(nonces, b)]);
      nonces := [];
      state := Complete;
    }

    method MakeAhead(made: CommitResult)
      modifies this
      ensures Value() == Precompute(old(Value()), made) && outq == old(outq)
    {
      if signMode && (state == Idle || state == Complete) && !precomputed {
        precomputed := Regenerate(made);
      }
    }
  }
}
