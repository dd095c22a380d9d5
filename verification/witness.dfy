/**
 * The read-back hypotheses the other modules rely on can be met. A toy
 * byte encoding (a run of ones per character, closed by a zero) and a toy
 * id-list text (`[`, then each id with every character escaped by `a` and
 * closed by `b`) meet `Json.Coherent`; any one object and any one number
 * can be given a syntax that reads it back. So the lemmas that assume them
 * speak about inputs that exist.
 */
module Witness {
  import opened Wrappers
  import opened Json
  import opened Codec
  import opened Base64

  // ------------------------------------------------------------ bytes

  /** The code points Dafny's `char` can hold. */
  predicate IsScalar(n: nat) {
    n < 0xD800 || 0xE000 <= n < 0x11_0000
  }

  function Ones(n: nat): (b: Bytes)
    ensures |b| == n && forall i :: 0 <= i < n ==> b[i] == 1
  {
    seq(n, _ => 1 as byte)
  }

  function EncodeChars(s: string): (b: Bytes)
    ensures |b| >= |s|
  {
    if |s| == 0 then [] else Ones(s[0] as int) + [0 as byte] + EncodeChars(s[1..])
  }

  /** The leading run of ones and what follows its closing zero. */
  function Run(b: Bytes): (r: Option<(nat, Bytes)>)
    ensures r.Some? ==> |r.value.1| < |b|
    decreases |b|
  {
    if |b| == 0 then None
    else if b[0] == 0 then Some((0, b[1..]))
    else if b[0] == 1 then
      match Run(b[1..])
      case None => None
      case Some((n, rest)) => Some((n + 1, rest))
    else None
  }

  function DecodeChars(b: Bytes): Option<string>
    decreases |b|
  {
    if |b| == 0 then Some("")
    else match Run(b)
      case None => None
      case Some((n, rest)) =>
        if !IsScalar(n) then None
        else match DecodeChars(rest)
          case None => None
          case Some(s) => Some([n as char] + s)
  }

  lemma {:induction false} RunOfOnes(n: nat, rest: Bytes)
    ensures Run(Ones(n) + [0 as byte] + rest) == Some((n, rest))
    decreases n
  {
    var b := Ones(n) + [0 as byte] + rest;
    if n == 0 {
      assert b == [0 as byte] + rest;
      assert b[1..] == rest;
    } else {
      assert b[1..] == Ones(n - 1) + [0 as byte] + rest;
      RunOfOnes(n - 1, rest);
    }
  }

  lemma {:induction false} CharsRoundTrip(s: string)
    ensures DecodeChars(EncodeChars(s)) == Some(s)
    decreases |s|
  {
    if |s| > 0 {
      var rest := EncodeChars(s[1..]);
      RunOfOnes(s[0] as int, rest);
      assert IsScalar(s[0] as int);
      CharsRoundTrip(s[1..]);
      assert [s[0]] + s[1..] == s;
    }
  }

  // ------------------------------------------------------------ id lists

  function EncodeId(id: string): (t: string)
    ensures |t| == 2 * |id| + 1
  {
    if |id| == 0 then "b" else ['a', id[0]] + EncodeId(id[1..])
  }

  function EncodeIds(ids: seq<string>): string {
    if |ids| == 0 then "" else EncodeId(ids[0]) + EncodeIds(ids[1..])
  }

  /** One escaped id and the text after its closing `b`. */
  function ParseId(t: string): (r: Option<(string, string)>)
    ensures r.Some? ==> |r.value.1| < |t|
    decreases |t|
  {
    if |t| == 0 then None
    else if t[0] == 'b' then Some(("", t[1..]))
    else if t[0] == 'a' && |t| >= 2 then
      match ParseId(t[2..])
      case None => None
      case Some((id, rest)) => Some(([t[1]] + id, rest))
    else None
  }

  function ParseIdList(t: string): Option<seq<string>>
    decreases |t|
  {
    if |t| == 0 then Some([])
    else match ParseId(t)
      case None => None
      case Some((id, rest)) =>
        match ParseIdList(rest)
        case None => None
        case Some(ids) => Some([id] + ids)
  }

  function StringifyIds(ids: seq<string>): string {
    "[" + EncodeIds(ids)
  }

  function ParseIds(t: string): Option<IdsParse> {
    if |t| > 0 && t[0] == '[' then
      match ParseIdList(t[1..])
      case None => None
      case Some(ids) => Some(IdList(ids))
    else None
  }

  lemma {:induction false} ParseIdOfEncoded(id: string, rest: string)
    ensures ParseId(EncodeId(id) + rest) == Some((id, rest))
    decreases |id|
  {
    var t := EncodeId(id) + rest;
    if |id| == 0 {
      assert t[1..] == rest;
    } else {
      assert t[2..] == EncodeId(id[1..]) + rest;
      ParseIdOfEncoded(id[1..], rest);
      assert [id[0]] + id[1..] == id;
    }
  }

  lemma {:induction false} IdListRoundTrip(ids: seq<string>)
    ensures ParseIdList(EncodeIds(ids)) == Some(ids)
    decreases |ids|
  {
    if |ids| > 0 {
      var t := EncodeIds(ids);
      ParseIdOfEncoded(ids[0], EncodeIds(ids[1..]));
      IdListRoundTrip(ids[1..]);
      assert [ids[0]] + ids[1..] == ids;
      assert |EncodeId(ids[0])| > 0;
    }
  }

  // ------------------------------------------------------------ syntaxes

  function BraceText(o: Object): string {
    "{}"
  }

  /** The toy conversions, reading every object back as `o`. */
  function ToySyntax(o: Object): Syntax {
    Syntax(DecodeChars, EncodeChars, ParseIds, t => Some(o), StringifyIds, BraceText)
  }

  /** `Json.Coherent` can be met, together with the read-back of any one object. */
  lemma {:induction false} CoherentIsSatisfiable(o: Object)
    ensures Coherent(ToySyntax(o)) && ObjectReadsBack(ToySyntax(o), o)
  {
    var sx := ToySyntax(o);
    forall s: string
      ensures sx.utf8Decode(sx.utf8Encode(s)) == Some(s)
    {
      CharsRoundTrip(s);
    }
    forall ids: seq<string>
      ensures sx.parseIds(sx.stringifyIds(ids)) == Some(IdList(ids))
    {
      var t := StringifyIds(ids);
      assert t[1..] == EncodeIds(ids);
      IdListRoundTrip(ids);
    }
    forall ids: seq<string>
      ensures !IsBlank(sx.stringifyIds(ids))
    {
      assert sx.stringifyIds(ids)[0] == '[';
    }
    forall s: string | IsBlank(s)
      ensures sx.parseIds(s).None?
    {
      if |s| > 0 {
        assert IsJsWhitespace(s[0]);
      }
    }
    assert sx.stringifyObject(o) == "{}";
    assert !IsBlank("{}") by {
      assert !IsJsWhitespace("{}"[0]);
    }
  }

  /** `Codec.ReadsBack` can be met for any one number. */
  lemma ReadsBackIsSatisfiable(n: JsNumber)
    ensures ReadsBack(NumberSyntax(_ => n, _ => "0"), n)
  {
    assert IsLatin1("0") by {
      assert "0"[0] as int < 256;
    }
  }
}
