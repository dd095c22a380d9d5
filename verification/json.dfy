/**
 * The JSON values a record blob holds, JavaScript truthiness over them, and
 * the text/byte conversions the app relies on (`ethers.toUtf8String`,
 * `ethers.toUtf8Bytes`, `JSON.parse`, `JSON.stringify`), which stay abstract.
 */
module Json {
  import opened Wrappers

  newtype byte = b: int | 0 <= b < 256

  type Bytes = seq<byte>

  /**
   * A JSON value. A number is kept exactly as a real (JSON text has no NaN
   * or infinities); `Compound` stands for arrays and nested objects, whose
   * contents the model does not keep: they are copied and found truthy, but
   * what subtraction or a string method makes of them is not modelled.
   */
  datatype Json = Null | Bool(b: bool) | Num(n: real) | Str(s: string) | Compound

  /** A parsed JSON object: property name to value. */
  type Object = map<string, Json>

  /** A property read: `None` is JavaScript's `undefined`. */
  type Field = Option<Json>

  function Member(o: Object, key: string): (f: Field)
    ensures f.Some? <==> key in o
    ensures f.Some? ==> f.value == o[key]
  {
    if key in o then Some(o[key]) else None
  }

  /** JavaScript truthiness: `null`, `false`, `0`, `""` and `undefined` are falsy. */
  predicate Truthy(f: Field) {
    match f
    case None => false
    case Some(Null) => false
    case Some(Bool(b)) => b
    case Some(Num(n)) => n != 0.0
    case Some(Str(s)) => s != ""
    case Some(Compound) => true
  }

  /** `f || fallback` for a string fallback. */
  function OrDefault(f: Field, fallback: string): (j: Json)
    ensures Truthy(f) ==> Some(j) == f
    ensures !Truthy(f) ==> j == Str(fallback)
  {
    if Truthy(f) then f.value else Str(fallback)
  }

  /** Whitespace and line terminators that `String.prototype.trim` removes. */
  predicate IsJsWhitespace(c: char) {
    || c == '\t' || c == '\n' || c == '\U{000B}' || c == '\U{000C}' || c == '\r' || c == ' '
    || c == '\U{00A0}' || c == '\U{1680}' || ('\U{2000}' <= c <= '\U{200A}')
    || c == '\U{2028}' || c == '\U{2029}' || c == '\U{202F}' || c == '\U{205F}'
    || c == '\U{3000}' || c == '\U{FEFF}'
  }

  /** `s.trim() === ''`. */
  predicate IsBlank(s: string) {
    forall i :: 0 <= i < |s| ==> IsJsWhitespace(s[i])
  }

  /**
   * What `JSON.parse` makes of the index text: a list of ids, a string
   * (which `for…of` walks one character at a time, and which has no
   * `push`), or any other value that is not an array (an object, `null`, a
   * number or a boolean: neither iterable nor pushable).
   */
  datatype IdsParse = IdList(ids: seq<string>) | IdString(s: string) | NotList

  /**
   * The conversions between ledger bytes, text and JSON. A parser returns
   * `None` where the JavaScript call throws. `parseIds` reads the index;
   * an array holding anything but strings is not modelled.
   * `parseObject` also returns `None` for the text `null`
   * (reading a property of it throws) and the empty object for a number,
   * boolean, string or array (whose named properties read as `undefined`).
   */
  datatype Syntax = Syntax(
    utf8Decode: Bytes -> Option<string>,
    utf8Encode: string -> Bytes,
    parseIds: string -> Option<IdsParse>,
    parseObject: string -> Option<Object>,
    stringifyIds: seq<string> -> string,
    stringifyObject: Object -> string)

  /**
   * What the conversions guarantee for text and id lists, and the model
   * relies on: UTF-8 round-trips and never shrinks a string, a list of
   * strings round-trips through JSON text that is never blank, and blank
   * text is not JSON. Strings and id lists are countable, so real
   * conversions can meet all of it.
   */
  ghost predicate Coherent(sx: Syntax) {
    && (forall s :: sx.utf8Decode(sx.utf8Encode(s)) == Some(s))
    && (forall s :: |sx.utf8Encode(s)| >= |s|)
    && (forall ids :: sx.parseIds(sx.stringifyIds(ids)) == Some(IdList(ids)))
    && (forall ids :: !IsBlank(sx.stringifyIds(ids)))
    && (forall s :: IsBlank(s) ==> sx.parseIds(s).None?)
  }

  /**
   * One object survives `JSON.stringify` then `JSON.parse`, through text
   * that is not blank. JSON numbers are doubles, so this is asked only of
   * the objects a property is about (those whose numbers are doubles), not
   * of every object with a real in it.
   */
  predicate ObjectReadsBack(sx: Syntax, o: Object) {
    sx.parseObject(sx.stringifyObject(o)) == Some(o) && !IsBlank(sx.stringifyObject(o))
  }
}
