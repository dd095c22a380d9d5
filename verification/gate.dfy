/**
 * The decryption gate: a fixed-order challenge built from the session
 * parameters, and `decryptWithSignature`, which releases the decoded value
 * only after the wallet signs that challenge. The signature is not checked
 * against anything and is not tied to the token being decoded.
 */
module Gate {
  import opened Wrappers
  import opened Codec
  import opened Json
  import Decimal

  /** The values the challenge embeds (the public key is random, the start time a clock read). */
  datatype SessionParams = SessionParams(
    publicKey: string,
    contractAddress: string,
    chainId: nat,
    startTimestamp: nat,
    durationDays: nat)

  predicate NoNewline(s: string) {
    forall i :: 0 <= i < |s| ==> s[i] != '\n'
  }

  /** The lines joined with line feeds between them. */
  function JoinLines(ls: seq<string>): string
    requires |ls| >= 1
    decreases |ls|
  {
    if |ls| == 1 then ls[0] else ls[0] + "\n" + JoinLines(ls[1..])
  }

  /** The fields of the challenge, one `label:value` per line, in this order. */
  function ChallengeFields(p: SessionParams): seq<string> {
    [ "publickey:" + p.publicKey,
      "contractAddresses:" + p.contractAddress,
      "contractsChainId:" + Decimal.Show(p.chainId),
      "startTimestamp:" + Decimal.Show(p.startTimestamp),
      "durationDays:" + Decimal.Show(p.durationDays) ]
  }

  /** The message handed to `signMessageAsync`. */
  function Challenge(p: SessionParams): string {
    JoinLines(ChallengeFields(p))
  }

  /** Splits text at each line feed (the reader's view of the challenge). */
  function Lines(s: string): (r: seq<string>)
    ensures |r| >= 1
    decreases |s|
  {
    if |s| == 0 then [""]
    else
      var rest := Lines(s[1..]);
      if s[0] == '\n' then [""] + rest else [[s[0]] + rest[0]] + rest[1..]
  }

  lemma {:induction false} LinesOfJoin(a: string, b: string)
    requires NoNewline(a)
    ensures Lines(a + "\n" + b) == [a] + Lines(b)
    decreases |a|
  {
    if |a| > 0 {
      LinesOfJoin(a[1..], b);
      assert (a + "\n" + b)[1..] == a[1..] + "\n" + b;
      assert [a[0]] + a[1..] == a;
    } else {
      assert a + "\n" + b == "\n" + b;
      assert ("\n" + b)[1..] == b;
    }
  }

  lemma {:induction false} LinesOfLine(a: string)
    requires NoNewline(a)
    ensures Lines(a) == [a]
    decreases |a|
  {
    if |a| > 0 {
      LinesOfLine(a[1..]);
      assert [a[0]] + a[1..] == a;
    }
  }

  lemma DigitsHaveNoNewline(n: nat)
    ensures NoNewline(Decimal.Show(n))
  {
  }

  /** Splitting joined newline-free lines gives the lines back. */
  lemma {:induction false} LinesOfJoinLines(ls: seq<string>)
    requires |ls| >= 1
    requires forall i :: 0 <= i < |ls| ==> NoNewline(ls[i])
    ensures Lines(JoinLines(ls)) == ls
    decreases |ls|
  {
    if |ls| == 1 {
      LinesOfLine(ls[0]);
    } else {
      LinesOfJoinLines(ls[1..]);
      LinesOfJoin(ls[0], JoinLines(ls[1..]));
      assert [ls[0]] + ls[1..] == ls;
    }
  }

  /** The challenge has the five fields on five lines, in fixed order. */
  lemma ChallengeLines(p: SessionParams)
    requires NoNewline(p.publicKey) && NoNewline(p.contractAddress)
    ensures Lines(Challenge(p)) == ChallengeFields(p)
  {
    DigitsHaveNoNewline(p.chainId);
    DigitsHaveNoNewline(p.startTimestamp);
    DigitsHaveNoNewline(p.durationDays);
    var fs := ChallengeFields(p);
    forall i | 0 <= i < |fs|
      ensures NoNewline(fs[i])
    {
    }
    LinesOfJoinLines(fs);
  }

  lemma StripLabel(tag: string, a: string, b: string)
    requires tag + a == tag + b
    ensures a == b
  {
    assert a == (tag + a)[|tag|..];
    assert b == (tag + b)[|tag|..];
  }

  /** Equal challenges come only from equal session parameters. */
  lemma ChallengeDeterminesParams(p: SessionParams, q: SessionParams)
    requires NoNewline(p.publicKey) && NoNewline(p.contractAddress)
    requires NoNewline(q.publicKey) && NoNewline(q.contractAddress)
    requires Challenge(p) == Challenge(q)
    ensures p == q
  {
    ChallengeLines(p);
    ChallengeLines(q);
    var lp := Lines(Challenge(p));
    StripLabel("publickey:", p.publicKey, q.publicKey);
    StripLabel("contractAddresses:", p.contractAddress, q.contractAddress);
    StripLabel("contractsChainId:", Decimal.Show(p.chainId), Decimal.Show(q.chainId));
    StripLabel("startTimestamp:", Decimal.Show(p.startTimestamp), Decimal.Show(q.startTimestamp));
    StripLabel("durationDays:", Decimal.Show(p.durationDays), Decimal.Show(q.durationDays));
    Decimal.ShowInjective(p.chainId, q.chainId);
    Decimal.ShowInjective(p.startTimestamp, q.startTimestamp);
    Decimal.ShowInjective(p.durationDays, q.durationDays);
  }

  /**
   * `decryptWithSignature(record.encryptedData)`: `None` (the source's
   * `null`) unless the wallet is connected and signs the challenge (`sign`
   * returns `None` when the request is refused); then the decoded token, or
   * `None` when decoding throws: `atob` on a bad payload, or `startsWith` on
   * a `data` property that is missing or not a string.
   */
  function DecryptWithSignature(ns: NumberSyntax, connected: bool, p: SessionParams,
                                sign: string -> Option<string>, data: Field): (r: Option<JsNumber>)
    ensures r.Some? ==> connected && sign(Challenge(p)).Some? && data.Some? && data.value.Str?
    ensures connected && sign(Challenge(p)).Some? && data.Some? && data.value.Str? ==>
              r == Decrypt(ns, data.value.s).ToOption()
  {
    if !connected then None
    else match sign(Challenge(p))
      case None => None
      case Some(_) =>
        match data
        case Some(Str(token)) =>
          (match Decrypt(ns, token)
           case Success(v) => Some(v)
           case Failure(_) => None)
        case _ => None
  }

  /**
   * The signature authorises but does not bind: any two signers that both
   * sign give the same value, and it is the value the token encodes.
   */
  lemma SignatureDoesNotBindValue(ns: NumberSyntax, p: SessionParams,
                                  sign1: string -> Option<string>, sign2: string -> Option<string>,
                                  v: JsNumber)
    requires ReadsBack(ns, v)
    requires sign1(Challenge(p)).Some? && sign2(Challenge(p)).Some?
    ensures Encrypt(ns, v).Success?
    ensures DecryptWithSignature(ns, true, p, sign1, Some(Str(Encrypt(ns, v).value)))
            == DecryptWithSignature(ns, true, p, sign2, Some(Str(Encrypt(ns, v).value)))
            == Some(v)
  {
    NumberRoundTrip(ns, v);
  }
}
