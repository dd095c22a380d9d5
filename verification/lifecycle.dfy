/**
 * The status transitions of App.tsx. `verifyRecord` and `rejectRecord`
 * rewrite a stored blob whatever its current status and whoever calls them;
 * only the row rendering offers the two buttons, to the record's owner and
 * while the record is pending. The model keeps that split: unconditional
 * transitions here, and the rendering guard `OffersActions` beside them.
 */
module Lifecycle {
  import opened Wrappers
  import opened Json
  import opened Codec
  import opened Store

  /** `{ ...o, status: "verified", data: token }`. */
  function VerifiedObject(o: Object, token: string): (r: Object)
    ensures Member(r, "status") == Some(Verified)
    ensures Member(r, "data") == Some(Str(token))
    ensures forall k :: k != "status" && k != "data" ==> Member(r, k) == Member(o, k)
  {
    o["status" := Verified]["data" := Str(token)]
  }

  /** `{ ...o, status: "rejected" }`. */
  function RejectedObject(o: Object): (r: Object)
    ensures Member(r, "status") == Some(Rejected)
    ensures forall k :: k != "status" ==> Member(r, k) == Member(o, k)
  {
    o["status" := Rejected]
  }

  /** The token verification stores: `FHECompute(o.data, 'increase10%')`, or why it cannot. */
  function VerifiedToken(ns: NumberSyntax, o: Object): (r: Result<string, Error>)
    ensures r.Success? <==> Member(o, "data").Some? && o["data"].Str? && Compute(ns, o["data"].s, Increase).Success?
    ensures r.Success? ==> r.value == Compute(ns, o["data"].s, Increase).value
  {
    match Member(o, "data")
    case Some(Str(token)) =>
      (match Compute(ns, token, Increase)
       case Success(t) => Success(t)
       case Failure(_) => Failure(BadToken))
    case _ => Failure(Malformed)   // `startsWith` of a non-string throws
  }

  /** Stores `o` under `id` the way the app does. */
  function WriteObject(sx: Syntax, l: Ledger, id: string, o: Object): Ledger {
    l[RecordKey(id) := sx.utf8Encode(sx.stringifyObject(o))]
  }

  /** `verifyRecord(id)`: the blob is read through the read-only handle, then written with the signer. */
  function Verify(ns: NumberSyntax, sx: Syntax, s: Session, l: Ledger, id: string): (out: Outcome<()>)
    ensures out.result.Success? <==>
              && s.connected
              && s.hasReader
              && ReadObject(sx, l, id).Success?
              && VerifiedToken(ns, ReadObject(sx, l, id).value).Success?
              && s.hasSigner && s.approvals >= 1
    ensures out.result.Success? ==>
              out.ledger == WriteObject(sx, l, id, VerifiedObject(ReadObject(sx, l, id).value,
                                                           VerifiedToken(ns, ReadObject(sx, l, id).value).value))
    ensures s.connected && s.hasReader && |Read(l, RecordKey(id))| == 0 ==> out.result == Failure(NotFound)
    ensures out.result.Failure? ==> out.ledger == l
  {
    if !s.connected then Outcome(l, Failure(NotConnected))
    else if !s.hasReader then Outcome(l, Failure(NoReader))
    else match ReadObject(sx, l, id)
      case Failure(e) => Outcome(l, Failure(e))
      case Success(o) =>
        match VerifiedToken(ns, o)
        case Failure(e) => Outcome(l, Failure(e))
        case Success(token) =>
          if !s.hasSigner then Outcome(l, Failure(NoSigner))
          else if s.approvals == 0 then Outcome(l, Failure(UserRejected))
          else Outcome(WriteObject(sx, l, id, VerifiedObject(o, token)), Success(()))
  }

  /** `rejectRecord(id)`: the signer is fetched before the blob is read. */
  function Reject(sx: Syntax, s: Session, l: Ledger, id: string): (out: Outcome<()>)
    ensures out.result.Success? <==>
              s.connected && s.hasSigner && ReadObject(sx, l, id).Success? && s.approvals >= 1
    ensures out.result.Success? ==>
              out.ledger == WriteObject(sx, l, id, RejectedObject(ReadObject(sx, l, id).value))
    ensures s.connected && s.hasSigner && |Read(l, RecordKey(id))| == 0 ==> out.result == Failure(NotFound)
    ensures out.result.Failure? ==> out.ledger == l
  {
    if !s.connected then Outcome(l, Failure(NotConnected))
    else if !s.hasSigner then Outcome(l, Failure(NoSigner))
    else match ReadObject(sx, l, id)
      case Failure(e) => Outcome(l, Failure(e))
      case Success(o) =>
        if s.approvals == 0 then Outcome(l, Failure(UserRejected))
        else Outcome(WriteObject(sx, l, id, RejectedObject(o)), Success(()))
  }

  /** A stored object whose JSON reads back reads back as itself, and no other key moves. */
  lemma WriteObjectReadsBack(sx: Syntax, l: Ledger, id: string, o: Object)
    requires Coherent(sx) && ObjectReadsBack(sx, o)
    ensures ReadObject(sx, WriteObject(sx, l, id, o), id) == Success(o)
    ensures forall k :: k != RecordKey(id) ==> Read(WriteObject(sx, l, id, o), k) == Read(l, k)
  {
    var text := sx.stringifyObject(o);
    assert !IsBlank(text);
    assert |text| > 0;
  }

  /**
   * After a verification the record reads back with status `verified`, a
   * tagged token that decodes to the old value scaled by 1.1 (whenever that
   * number's text reads back), and every other property as it was, whatever
   * the status was before. The rewritten object's JSON is assumed to read
   * back.
   */
  lemma VerifyChangesStatusAndData(ns: NumberSyntax, sx: Syntax, s: Session, l: Ledger, id: string)
    requires Coherent(sx)
    requires Verify(ns, sx, s, l, id).result.Success?
    requires ObjectReadsBack(sx, VerifiedObject(ReadObject(sx, l, id).value,
                                                VerifiedToken(ns, ReadObject(sx, l, id).value).value))
    ensures var before := ReadObject(sx, l, id).value;
            var after := ReadObject(sx, Verify(ns, sx, s, l, id).ledger, id);
            && after.Success?
            && Member(after.value, "status") == Some(Verified)
            && after.value["data"].Str?
            && StartsWith(after.value["data"].s, Tag)
            && Decrypt(ns, before["data"].s).Success?
            && (ReadsBack(ns, Scale(Increase, Decrypt(ns, before["data"].s).value)) ==>
                  Decrypt(ns, after.value["data"].s) == Success(Scale(Increase, Decrypt(ns, before["data"].s).value)))
            && (forall k :: k != "status" && k != "data" ==> Member(after.value, k) == Member(before, k))
    ensures ListedIds(sx, Verify(ns, sx, s, l, id).ledger) == ListedIds(sx, l) || RecordKey(id) == IndexKey
  {
    var before := ReadObject(sx, l, id).value;
    var token := VerifiedToken(ns, before).value;
    WriteObjectReadsBack(sx, l, id, VerifiedObject(before, token));
    var n := Scale(Increase, Decrypt(ns, before["data"].s).value);
    if ReadsBack(ns, n) {
      ComputeSpec(ns, before["data"].s, Increase);
    }
    if RecordKey(id) != IndexKey {
      assert Read(Verify(ns, sx, s, l, id).ledger, IndexKey) == Read(l, IndexKey);
      SameIndexSameIds(sx, Verify(ns, sx, s, l, id).ledger, l);
    }
  }

  /**
   * After a rejection the record reads back with status `rejected` and
   * nothing else changed (when the rewritten object's JSON reads back).
   */
  lemma RejectChangesOnlyStatus(sx: Syntax, s: Session, l: Ledger, id: string)
    requires Coherent(sx)
    requires Reject(sx, s, l, id).result.Success?
    requires ObjectReadsBack(sx, RejectedObject(ReadObject(sx, l, id).value))
    ensures var before := ReadObject(sx, l, id).value;
            var after := ReadObject(sx, Reject(sx, s, l, id).ledger, id);
            && after.Success?
            && Member(after.value, "status") == Some(Rejected)
            && (forall k :: k != "status" ==> Member(after.value, k) == Member(before, k))
  {
    WriteObjectReadsBack(sx, l, id, RejectedObject(ReadObject(sx, l, id).value));
  }

  /**
   * The transitions themselves enforce no state machine: a record already
   * rejected is verified all the same.
   */
  lemma VerifyAfterReject(ns: NumberSyntax, sx: Syntax, s: Session, l: Ledger, id: string)
    requires Coherent(sx)
    requires Reject(sx, s, l, id).result.Success?
    requires VerifiedToken(ns, ReadObject(sx, l, id).value).Success?
    requires var o := ReadObject(sx, l, id).value;
             && ObjectReadsBack(sx, RejectedObject(o))
             && ObjectReadsBack(sx, VerifiedObject(RejectedObject(o), VerifiedToken(ns, o).value))
    ensures var l2 := Reject(sx, s, l, id).ledger;
            && (Verify(ns, sx, s, l2, id).result.Success? <==> s.hasReader)
            && (s.hasReader ==>
                  Member(ReadObject(sx, Verify(ns, sx, s, l2, id).ledger, id).value, "status") == Some(Verified))
  {
    var l2 := Reject(sx, s, l, id).ledger;
    RejectChangesOnlyStatus(sx, s, l, id);
    var o2 := ReadObject(sx, l2, id).value;
    assert Member(o2, "data") == Member(ReadObject(sx, l, id).value, "data");
    assert VerifiedToken(ns, o2) == VerifiedToken(ns, ReadObject(sx, l, id).value);
    if s.hasReader {
      VerifyChangesStatusAndData(ns, sx, s, l2, id);
    }
  }

  // ------------------------------------------------------------- ownership

  /** `toLowerCase` on the ASCII letters of an address. */
  function LowerChar(c: char): char {
    if 'A' <= c <= 'Z' then (c as int + 32) as char else c
  }

  function Lower(s: string): (r: string)
    ensures |r| == |s|
    ensures forall i :: 0 <= i < |s| ==> r[i] == LowerChar(s[i])
  {
    seq(|s|, i requires 0 <= i < |s| => LowerChar(s[i]))
  }

  /** Two characters that differ at most in ASCII letter case. */
  predicate SameIgnoringCase(a: char, b: char) {
    || a == b
    || ('A' <= a <= 'Z' && b as int == a as int + 32)
    || ('A' <= b <= 'Z' && a as int == b as int + 32)
  }

  /** `isOwner`: the connected address equals the owner up to letter case. */
  function IsOwner(address: Option<string>, recordOwner: string): (r: bool)
    ensures r <==> address.Some? && |address.value| == |recordOwner|
                   && forall i :: 0 <= i < |recordOwner| ==> SameIgnoringCase(address.value[i], recordOwner[i])
  {
    if address.None? then false
    else
      var a := address.value;
      assert Lower(a) == Lower(recordOwner) <==>
               |a| == |recordOwner| && forall i :: 0 <= i < |a| ==> LowerChar(a[i]) == LowerChar(recordOwner[i]);
      Lower(a) == Lower(recordOwner)
  }

  /** Ownership is an equivalence on addresses: reflexive, symmetric, transitive. */
  lemma OwnershipIsEquivalence(a: string, b: string, c: string)
    ensures IsOwner(Some(a), a)
    ensures IsOwner(Some(a), b) ==> IsOwner(Some(b), a)
    ensures IsOwner(Some(a), b) && IsOwner(Some(b), c) ==> IsOwner(Some(a), c)
  {
  }

  /**
   * The row rendering's guard: the buttons show for a pending record whose
   * owner is the connected address. A record whose owner is not a string is
   * never offered.
   */
  function OffersActions(address: Option<string>, rec: Record): (r: bool)
    ensures r ==> rec.status == Pending
    ensures r ==> address.Some? && rec.owner.Some? && rec.owner.value.Str?
                  && IsOwner(address, rec.owner.value.s)
    ensures (rec.status == Pending && rec.owner.Some? && rec.owner.value.Str?
             && IsOwner(address, rec.owner.value.s)) ==> r
  {
    match rec.owner
    case Some(Str(o)) => IsOwner(address, o) && rec.status == Pending
    case _ => false
  }
}
