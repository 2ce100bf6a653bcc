/**
 * JSON documents and the decoder that internal/gsbench/recovery_ledger.go:459-475 starts from:
 * the grammar of RFC 8259 as Go's encoding/json reads it, with numbers kept as they are spelled.
 */
module JsonReader {
  import opened Common
  import opened Text
  import Number = CanonicalNumber

  /** A decoded document; numbers keep their literal text. */
  datatype Json =
    | Null
    | Bool(flag: bool)
    | Str(text: string)
    | Num(literal: string)
    | Arr(items: seq<Json>)
    | Obj(fields: map<string, Json>)

  // ---- strings ----

  predicate IsHex(c: char) { IsDigit(c) || 'a' <= c <= 'f' || 'A' <= c <= 'F' }

  function HexValue(c: char): (d: nat)
    requires IsHex(c)
    ensures d < 16
  {
    if IsDigit(c) then DigitOf(c)
    else if 'a' <= c <= 'f' then c as int - 'a' as int + 10
    else c as int - 'A' as int + 10
  }

  /** The number that four hexadecimal digits at the front stand for. */
  function ReadHex(s: string): (n: Option<nat>)
    ensures n.Some? ==> |s| >= 4 && n.value < 0x1_0000
  {
    if |s| < 4 || !IsHex(s[0]) || !IsHex(s[1]) || !IsHex(s[2]) || !IsHex(s[3]) then None
    else Some(0x1000 * HexValue(s[0]) + 0x100 * HexValue(s[1]) + 0x10 * HexValue(s[2]) + HexValue(s[3]))
  }

  predicate IsSurrogate(n: int) { 0xD800 <= n < 0xE000 }

  /** The second half of a surrogate pair, written as an escape of its own. */
  function ReadLowSurrogate(s: string): (n: Option<nat>)
    ensures n.Some? ==> |s| >= 6 && 0xDC00 <= n.value < 0xE000
  {
    if |s| < 6 || s[0] != '\\' || s[1] != 'u' then None else
    match ReadHex(s[2..])
    case Some(n) => if 0xDC00 <= n < 0xE000 then Some(n) else None
    case None => None
  }

  /** A pair of surrogates is one character; a surrogate that is not part of a pair is replaced. */
  function ReadUnicode(s: string): (r: Option<(char, string)>)
    ensures r.Some? ==> |r.value.1| < |s|
  {
    match ReadHex(s)
    case None => None
    case Some(n) =>
      if !IsSurrogate(n) then Some((n as char, s[4..])) else
      match ReadLowSurrogate(s[4..])
      case Some(low) =>
        if n < 0xDC00 then Some(((0x1_0000 + 0x400 * (n - 0xD800) + (low - 0xDC00)) as char, s[10..]))
        else Some((0xFFFD as char, s[4..]))
      case None => Some((0xFFFD as char, s[4..]))
  }

  /** What follows a backslash. */
  function ReadEscape(s: string): (r: Option<(char, string)>)
    ensures r.Some? ==> |r.value.1| < |s|
  {
    if s == "" then None else
    match s[0]
    case '"' => Some(('"', s[1..]))
    case '\\' => Some(('\\', s[1..]))
    case '/' => Some(('/', s[1..]))
    case 'b' => Some((8 as char, s[1..]))
    case 'f' => Some((12 as char, s[1..]))
    case 'n' => Some(('\n', s[1..]))
    case 'r' => Some(('\r', s[1..]))
    case 't' => Some(('\t', s[1..]))
    case 'u' => ReadUnicode(s[1..])
    case _ => None
  }

  /** One character inside a string. */
  function ReadChar(s: string): (r: Option<(char, string)>)
    requires s != ""
    ensures r.Some? ==> |r.value.1| < |s|
  {
    if s[0] == '\\' then ReadEscape(s[1..]) else if s[0] < ' ' then None else Some((s[0], s[1..]))
  }

  /** A string after its opening quote. */
  function ReadChars(s: string): (r: Option<(string, string)>)
    ensures r.Some? ==> |r.value.1| < |s|
    decreases |s|
  {
    if s == "" then None
    else if s[0] == '"' then Some(("", s[1..]))
    else
      match ReadChar(s)
      case None => None
      case Some((c, t)) =>
        match ReadChars(t)
        case None => None
        case Some((cs, rest)) => Some(([c] + cs, rest))
  }

  // ---- numbers ----

  predicate NumberChar(c: char) { IsDigit(c) || c == '-' || c == '+' || c == '.' || c == 'e' || c == 'E' }

  function NumberRun(s: string): (n: nat)
    ensures n <= |s|
  {
    if s != "" && NumberChar(s[0]) then 1 + NumberRun(s[1..]) else 0
  }

  function ReadNumber(s: string): (r: Option<(Json, string)>)
    ensures r.Some? ==> |r.value.1| < |s|
  {
    var n := NumberRun(s);
    if n > 0 && Number.MatchNumber(s[..n]).Some? then Some((Num(s[..n]), s[n..])) else None
  }

  // ---- values ----

  function SkipSpace(s: string): (r: string)
    ensures |r| <= |s|
  {
    if s != "" && (s[0] == ' ' || s[0] == '\t' || s[0] == '\n' || s[0] == '\r') then SkipSpace(s[1..]) else s
  }

  function ReadWord(s: string, word: string, value: Json): (r: Option<(Json, string)>)
    requires word != ""
    ensures r.Some? ==> |r.value.1| < |s|
  {
    if |word| <= |s| && s[..|word|] == word then Some((value, s[|word|..])) else None
  }

  /** A value at the front of a text, and the text after it. */
  function ReadValue(s: string): (r: Option<(Json, string)>)
    ensures r.Some? ==> |r.value.1| < |s|
    decreases |s|, 0
  {
    var t := SkipSpace(s);
    if t == "" then None else
    match t[0]
    case 'n' => ReadWord(t, "null", Null)
    case 't' => ReadWord(t, "true", Bool(true))
    case 'f' => ReadWord(t, "false", Bool(false))
    case '"' =>
      (match ReadChars(t[1..])
       case Some((text, rest)) => Some((Str(text), rest))
       case None => None)
    case '[' =>
      (match ReadItems(t[1..], true)
       case Some((items, rest)) => Some((Arr(items), rest))
       case None => None)
    case '{' =>
      (match ReadFields(t[1..], true)
       case Some((fields, rest)) => Some((Obj(fields), rest))
       case None => None)
    case _ => ReadNumber(t)
  }

  /** What separates the next member of a list from what was read; None when there is none. */
  function ReadComma(t: string, first: bool): (r: Option<string>)
    ensures r.Some? ==> |r.value| <= |t|
  {
    if first then Some(t) else if t != "" && t[0] == ',' then Some(t[1..]) else None
  }

  /** The items of an array up to and including its closing bracket. */
  function ReadItems(s: string, first: bool): (r: Option<(seq<Json>, string)>)
    ensures r.Some? ==> |r.value.1| < |s|
    decreases |s|, 1
  {
    var t := SkipSpace(s);
    if t != "" && t[0] == ']' then Some(([], t[1..])) else
    match ReadComma(t, first)
    case None => None
    case Some(u) =>
      match ReadValue(u)
      case None => None
      case Some((item, v)) =>
        match ReadItems(v, false)
        case None => None
        case Some((items, rest)) => Some(([item] + items, rest))
  }

  /** A key and the colon after it. */
  function ReadKey(s: string): (r: Option<(string, string)>)
    ensures r.Some? ==> |r.value.1| < |s|
  {
    var t := SkipSpace(s);
    if t == "" || t[0] != '"' then None else
    match ReadChars(t[1..])
    case None => None
    case Some((key, u)) =>
      var v := SkipSpace(u);
      if v != "" && v[0] == ':' then Some((key, v[1..])) else None
  }

  /** The members of an object up to and including its closing brace; of equal keys the last one counts. */
  function ReadFields(s: string, first: bool): (r: Option<(map<string, Json>, string)>)
    ensures r.Some? ==> |r.value.1| < |s|
    decreases |s|, 1
  {
    var t := SkipSpace(s);
    if t != "" && t[0] == '}' then Some((map[], t[1..])) else
    match ReadComma(t, first)
    case None => None
    case Some(u) =>
      match ReadKey(u)
      case None => None
      case Some((key, v)) =>
        match ReadValue(v)
        case None => None
        case Some((value, w)) =>
          match ReadFields(w, false)
          case None => None
          case Some((fields, rest)) => Some((map[key := value] + fields, rest))
  }

  /** One document with nothing but space around it. */
  function Decode(payload: string): Option<Json> {
    match ReadValue(payload)
    case Some((j, rest)) => if SkipSpace(rest) == "" then Some(j) else None
    case None => None
  }
}
