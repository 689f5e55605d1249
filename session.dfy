/**
 * The session the handlers read and write. actix-session keeps a map from
 * keys to the JSON text of each value: `insert` serializes the value with
 * serde_json, `get` deserializes it and reports text that does not parse as
 * an error, and `clear` empties the map. Signing, encryption and the cookie
 * that carries the map are not modelled.
 */
module SessionState {
  import opened Wrappers

  /** The session: key to JSON text. */
  type Entries = map<string, string>

  // ---------------------------------------------------------------------
  // JSON string serialization, as serde_json writes a `String`

  function HexDigit(n: nat): (c: char)
    requires n < 16
  {
    if n < 10 then ('0' as int + n) as char else ('a' as int + n - 10) as char
  }

  function HexValue(c: char): (v: Option<nat>)
    ensures v.Some? ==> v.value < 16
  {
    if '0' <= c <= '9' then Some(c as int - '0' as int)
    else if 'a' <= c <= 'f' then Some(c as int - 'a' as int + 10)
    else if 'A' <= c <= 'F' then Some(c as int - 'A' as int + 10)
    else None
  }

  /** The value of four hexadecimal digits. */
  function HexQuad(q: string): (v: Option<nat>)
    requires |q| == 4
    ensures v.Some? ==> v.value < 0x1_0000
  {
    match (HexValue(q[0]), HexValue(q[1]), HexValue(q[2]), HexValue(q[3]))
    case (Some(a), Some(b), Some(c), Some(d)) => Some(((a * 16 + b) * 16 + c) * 16 + d)
    case _ => None
  }

  /** The character a two-character escape `\x` stands for. */
  function ShortEscape(x: char): Option<char>
  {
    match x
    case '"' => Some('"')
    case '\\' => Some('\\')
    case '/' => Some('/')
    case 'b' => Some(0x08 as char)
    case 'f' => Some(0x0C as char)
    case 'n' => Some('\n')
    case 'r' => Some('\r')
    case 't' => Some('\t')
    case _ => None
  }

  /** One character inside a JSON string literal: quote, backslash and control characters are escaped. */
  function Escape(c: char): (e: string)
  {
    if c == '"' then ['\\', '"']
    else if c == '\\' then ['\\', '\\']
    else if c as int == 0x08 then ['\\', 'b']
    else if c as int == 0x0C then ['\\', 'f']
    else if c == '\n' then ['\\', 'n']
    else if c == '\r' then ['\\', 'r']
    else if c == '\t' then ['\\', 't']
    else if c as int < 0x20 then ['\\', 'u', '0', '0', HexDigit(c as int / 16), HexDigit(c as int % 16)]
    else [c]
  }

  function EscapeAll(s: string): string
  {
    if s == [] then [] else Escape(s[0]) + EscapeAll(s[1..])
  }

  /** `serde_json::to_string` of a string. */
  function Encode(s: string): (json: string)
    ensures |json| >= 2 && json[0] == '"' && json[|json| - 1] == '"'
  {
    "\"" + EscapeAll(s) + "\""
  }

  function Prepend(c: char, r: Option<string>): Option<string>
  {
    match r
    case Some(t) => Some([c] + t)
    case None => None
  }

  /**
   * The characters of a JSON string literal after its opening quote, up to
   * the closing quote, which must end the text. Unpaired or paired UTF-16
   * surrogate escapes are rejected.
   */
  function Unescape(s: string): Option<string>
    decreases |s|
  {
    if s == [] then None
    else if s[0] == '"' then (if |s| == 1 then Some([]) else None)
    else if s[0] == '\\' then
      if |s| < 2 then None
      else if s[1] == 'u' then
        if |s| < 6 then None
        else match HexQuad(s[2..6])
          case None => None
          case Some(n) =>
            if 0xD800 <= n < 0xE000 then None else Prepend(n as char, Unescape(s[6..]))
      else match ShortEscape(s[1])
        case None => None
        case Some(c) => Prepend(c, Unescape(s[2..]))
    else if s[0] as int < 0x20 then None
    else Prepend(s[0], Unescape(s[1..]))
  }

  /** `serde_json::from_str::<String>`: `None` when the text is not one JSON string. */
  function Decode(json: string): Option<string>
  {
    if |json| >= 1 && json[0] == '"' then Unescape(json[1..]) else None
  }

  lemma HexRoundTrip(n: nat)
    requires n < 16
    ensures HexValue(HexDigit(n)) == Some(n)
  {
  }

  lemma {:induction false} UnescapeEscapeAll(s: string)
    ensures Unescape(EscapeAll(s) + "\"") == Some(s)
  {
    if s == [] {
      assert EscapeAll(s) + "\"" == "\"";
    } else {
      var c, rest := s[0], s[1..];
      var tail := EscapeAll(rest) + "\"";
      UnescapeEscapeAll(rest);
      assert EscapeAll(s) + "\"" == Escape(c) + tail;
      var e := Escape(c) + tail;
      if c == '"' || c == '\\' || c as int == 0x08 || c as int == 0x0C || c == '\n' || c == '\r' || c == '\t' {
        assert e[2..] == tail;
      } else if c as int < 0x20 {
        var hi, lo := c as int / 16, c as int % 16;
        HexRoundTrip(hi);
        HexRoundTrip(lo);
        assert e[2..6] == ['0', '0', HexDigit(hi), HexDigit(lo)];
        assert HexQuad(e[2..6]) == Some(c as int);
        assert e[6..] == tail;
      } else {
        assert e[1..] == tail;
      }
      assert s == [c] + rest;
    }
  }

  /** Deserializing what was serialized gives the string back. */
  lemma DecodeEncode(s: string)
    ensures Decode(Encode(s)) == Some(s)
  {
    assert Encode(s)[1..] == EscapeAll(s) + "\"";
    UnescapeEscapeAll(s);
  }

  // ---------------------------------------------------------------------
  // Session operations

  /** `Session::get::<String>`: no entry, the decoded value, or a deserialization error. */
  function Get(entries: Entries, key: string): (r: Result<Option<string>, string>)
    ensures r.Ok? && r.value.Some? ==> key in entries && Decode(entries[key]) == r.value
    ensures r.Err? <==> key in entries && Decode(entries[key]).None?
    ensures r.Ok? ==> r.value == (if key in entries then Decode(entries[key]) else None)
  {
    if key !in entries then Ok(None)
    else match Decode(entries[key])
      case Some(v) => Ok(Some(v))
      case None => Err("deserialization error")
  }

  /** `Session::insert` of a string value: reading the key back gives the value, other keys are untouched. */
  function Insert(entries: Entries, key: string, value: string): (r: Entries)
    ensures r.Keys == entries.Keys + {key}
    ensures Get(r, key) == Ok(Some(value))
    ensures forall other | other in entries && other != key :: other in r && r[other] == entries[other]
  {
    DecodeEncode(value);
    entries[key := Encode(value)]
  }

  /** `Session::clear`: no key is left. */
  function Clear(entries: Entries): (r: Entries)
    ensures forall key :: Get(r, key) == Ok(None)
  {
    map[]
  }
}
