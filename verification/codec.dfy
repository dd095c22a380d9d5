/**
 * The "FHE" token codec of App.tsx: a number's decimal text becomes
 * `"FHE-" + btoa(text)`; decoding strips the tag and runs `atob`, and an
 * untagged token is handed to `parseFloat` as it is. `FHECompute` decodes,
 * scales by a named factor and encodes again.
 *
 * JavaScript numbers are kept abstract: `parseFloat` and
 * `Number.prototype.toString` are the two functions of a `NumberSyntax`,
 * and the arithmetic is exact over the reals.
 */
module Codec {
  import opened Wrappers
  import opened Base64

  /** A JavaScript number, with exact reals in place of doubles. */
  datatype JsNumber = NaN | Infinity(negative: bool) | Finite(value: real)

  /** `parseFloat` (never throws; NaN on garbage) and `toString`. */
  datatype NumberSyntax = NumberSyntax(parse: string -> JsNumber, show: JsNumber -> string)

  /**
   * What the two JavaScript functions guarantee each other for one number:
   * `toString` gives ASCII text that `parseFloat` reads back as that number.
   * It holds of every double; the model asks it only of the numbers a
   * property is about.
   */
  predicate ReadsBack(ns: NumberSyntax, n: JsNumber) {
    ns.parse(ns.show(n)) == n && IsLatin1(ns.show(n))
  }

  const Tag: string := "FHE-"

  predicate StartsWith(s: string, prefix: string) {
    |prefix| <= |s| && s[..|prefix|] == prefix
  }

  /** `FHEEncryptNumber` at the text level: the tag followed by `btoa` of the text. */
  function EncryptText(text: string): (r: Result<string, Base64Error>)
    ensures r.Success? <==> IsLatin1(text)
    ensures r.Success? ==> StartsWith(r.value, Tag) && (|r.value| == |Tag| <==> text == "")
  {
    match Btoa(text)
    case Success(b) =>
      assert (Tag + b)[..|Tag|] == Tag;
      Success(Tag + b)
    case Failure(e) => Failure(e)
  }

  /** The text `FHEDecryptNumber` hands to `parseFloat`. */
  function Payload(token: string): Result<string, Base64Error> {
    if StartsWith(token, Tag) then Atob(token[|Tag|..]) else Success(token)
  }

  /** `FHEEncryptNumber(value)`. */
  function Encrypt(ns: NumberSyntax, value: JsNumber): Result<string, Base64Error> {
    EncryptText(ns.show(value))
  }

  /** `FHEDecryptNumber(token)`: throws only when `atob` does. */
  function Decrypt(ns: NumberSyntax, token: string): (r: Result<JsNumber, Base64Error>)
    ensures r.Success? <==> Payload(token).Success?
    ensures r.Success? ==> r.value == ns.parse(Payload(token).value)
  {
    match Payload(token)
    case Success(text) => Success(ns.parse(text))
    case Failure(e) => Failure(e)
  }

  const Increase: string := "increase10%"
  const Decrease: string := "decrease10%"
  const Double: string := "double"

  /** The factor an operation name stands for; unknown names leave the value alone. */
  function Factor(op: string): (k: real)
    ensures k > 0.0
  {
    if op == Increase then 1.1
    else if op == Decrease then 0.9
    else if op == Double then 2.0
    else 1.0
  }

  /** `value * factor` in JavaScript: NaN and the infinities absorb a positive factor. */
  function Scale(op: string, n: JsNumber): (r: JsNumber)
    ensures r.Finite? <==> n.Finite?
    ensures r.NaN? <==> n.NaN?
    ensures n.Infinity? ==> r == n
    ensures op != Increase && op != Decrease && op != Double ==> r == n
  {
    match n
    case Finite(v) => Finite(v * Factor(op))
    case _ => n
  }

  /** `FHECompute(token, op)`. */
  function Compute(ns: NumberSyntax, token: string, op: string): Result<string, Base64Error> {
    match Decrypt(ns, token)
    case Success(v) => Encrypt(ns, Scale(op, v))
    case Failure(e) => Failure(e)
  }

  /** The tag is removed exactly: a tagged token's payload is `atob` of the rest. */
  lemma PayloadOfTagged(rest: string)
    ensures Payload(Tag + rest) == Atob(rest)
  {
    assert (Tag + rest)[..|Tag|] == Tag;
    assert (Tag + rest)[|Tag|..] == rest;
  }

  /** The prefix alone picks the path: an untagged token is parsed raw. */
  lemma PayloadOfUntagged(token: string)
    requires !StartsWith(token, Tag)
    ensures Payload(token) == Success(token)
  {
  }

  /** Decoding a token built from a text gives the text back. */
  lemma TextRoundTrip(text: string)
    requires IsLatin1(text)
    ensures EncryptText(text).Success?
    ensures StartsWith(EncryptText(text).value, Tag)
    ensures Payload(EncryptText(text).value) == Success(text)
  {
    AtobBtoa(text);
    PayloadOfTagged(Btoa(text).value);
  }

  /** `FHEDecryptNumber(FHEEncryptNumber(v)) == v`. */
  lemma NumberRoundTrip(ns: NumberSyntax, v: JsNumber)
    requires ReadsBack(ns, v)
    ensures Encrypt(ns, v).Success?
    ensures Decrypt(ns, Encrypt(ns, v).value) == Success(v)
  {
    TextRoundTrip(ns.show(v));
  }

  /**
   * `FHECompute` fails exactly when the input token does not decode; its
   * result is tagged and decodes to the scaled value.
   */
  lemma ComputeSpec(ns: NumberSyntax, token: string, op: string)
    requires Decrypt(ns, token).Success? ==> ReadsBack(ns, Scale(op, Decrypt(ns, token).value))
    ensures Compute(ns, token, op).Success? <==> Decrypt(ns, token).Success?
    ensures Compute(ns, token, op).Success? ==>
              && StartsWith(Compute(ns, token, op).value, Tag)
              && Decrypt(ns, Compute(ns, token, op).value) == Success(Scale(op, Decrypt(ns, token).value))
  {
    if Decrypt(ns, token).Success? {
      var n := Scale(op, Decrypt(ns, token).value);
      TextRoundTrip(ns.show(n));
      NumberRoundTrip(ns, n);
    }
  }

  /** An unknown operation passes the decoded value through unchanged. */
  lemma UnknownOperationPassesThrough(ns: NumberSyntax, token: string, op: string)
    requires op != Increase && op != Decrease && op != Double
    requires Decrypt(ns, token).Success? && ReadsBack(ns, Decrypt(ns, token).value)
    ensures Decrypt(ns, Compute(ns, token, op).value) == Decrypt(ns, token)
  {
    ComputeSpec(ns, token, op);
  }
}
