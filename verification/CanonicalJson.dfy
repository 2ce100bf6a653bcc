/**
 * The canonical printer behind action identity (internal/gsbench/recovery_ledger.go:459-523)
 * and the payload comparison built on it (internal/gsbench/restore.go:1157-1167).
 * Printing and reading are inverse up to the spelling of numbers, so two documents print the
 * same text exactly when they are equal up to the order of object keys and number spelling.
 */
module CanonicalJson {
  import opened Common
  import opened JsonReader
  import opened Text
  import Sorting
  import Number = CanonicalNumber

  // ---- strings ----

  function HexDigit(d: nat): (c: char)
    requires d < 16
    ensures IsHex(c) && HexValue(c) == d
  {
    if d < 10 then ('0' as int + d) as char else ('a' as int + (d - 10)) as char
  }

  function HexEscape(n: nat): string
    requires n < 0x1_0000
  {
    ['\\', 'u', HexDigit(n / 0x1000), HexDigit(n / 0x100 % 0x10), HexDigit(n / 0x10 % 0x10), HexDigit(n % 0x10)]
  }

  /** One character as encoding/json writes it, HTML-sensitive characters escaped. */
  function EncodeChar(c: char): string {
    if c == '"' || c == '\\' then ['\\', c]
    else if c == 8 as char then ['\\', 'b']
    else if c == 12 as char then ['\\', 'f']
    else if c == '\n' then ['\\', 'n']
    else if c == '\r' then ['\\', 'r']
    else if c == '\t' then ['\\', 't']
    else if c < 32 as char || c == '<' || c == '>' || c == '&' || c == 0x2028 as char || c == 0x2029 as char
    then HexEscape(c as int)
    else [c]
  }

  function EncodeChars(s: string): string {
    if s == "" then "" else EncodeChar(s[0]) + EncodeChars(s[1..])
  }

  function Quote(s: string): string { "\"" + EncodeChars(s) + "\"" }

  lemma ReadHexEscape(n: nat, rest: string)
    requires n < 0x1_0000 && !IsSurrogate(n)
    ensures ReadChar(HexEscape(n) + rest) == Some((n as char, rest))
  {
    var s := HexEscape(n) + rest;
    assert ReadHex(s[2..]) == Some(n) by { HexParts(n); }
    assert s[1..][1..] == s[2..] && s[2..][4..] == rest;
  }

  lemma ReadEncodedChar(c: char, rest: string)
    ensures EncodeChar(c) != "" && EncodeChar(c)[0] != '"'
    ensures ReadChar(EncodeChar(c) + rest) == Some((c, rest))
  {
    var s := EncodeChar(c) + rest;
    if |EncodeChar(c)| == 6 {
      assert s == HexEscape(c as int) + rest;
      ReadHexEscape(c as int, rest);
    } else {
      assert s[1..] == EncodeChar(c)[1..] + rest;
    }
  }

  lemma HexParts(n: nat)
    requires n < 0x1_0000
    ensures 0x1000 * (n / 0x1000) + 0x100 * (n / 0x100 % 0x10) + 0x10 * (n / 0x10 % 0x10) + n % 0x10 == n
  {
    var a, b := n / 0x10, n / 0x100;
    assert n == 0x10 * a + n % 0x10;
    assert a / 0x10 == b && a == 0x10 * b + a % 0x10;
    assert b / 0x10 == n / 0x1000 && b == 0x10 * (b / 0x10) + b % 0x10;
  }

  /** A string reads back from its quoted form, whatever follows it. */
  lemma {:induction false} ReadQuoted(a: string, rest: string)
    ensures ReadChars(EncodeChars(a) + ("\"" + rest)) == Some((a, rest))
  {
    hide EncodeChar, ReadChar;
    var tail := "\"" + rest;
    if a == "" {
      assert EncodeChars(a) + tail == tail;
    } else {
      var more := EncodeChars(a[1..]) + tail;
      assert EncodeChars(a) + tail == EncodeChar(a[0]) + more;
      ReadEncodedChar(a[0], more);
      ReadQuoted(a[1..], rest);
      assert [a[0]] + a[1..] == a;
    }
  }

  lemma QuoteSplit(a: string, x: string)
    ensures Quote(a) + x == "\"" + (EncodeChars(a) + ("\"" + x))
  {
    hide EncodeChars;
    assert "\"" + EncodeChars(a) + "\"" + x == "\"" + (EncodeChars(a) + ("\"" + x));
  }

  // ---- numbers end at the first delimiter ----

  predicate NumberChars(s: string) {
    s == "" || (NumberChar(s[|s| - 1]) && NumberChars(s[..|s| - 1]))
  }

  lemma {:induction false} NumberCharsConcat(a: string, b: string)
    requires NumberChars(a) && NumberChars(b)
    ensures NumberChars(a + b)
  {
    if b == "" {
      assert a + b == a;
    } else {
      assert (a + b)[..|a + b| - 1] == a + b[..|b| - 1];
      NumberCharsConcat(a, b[..|b| - 1]);
    }
  }

  lemma {:induction false} NumberCharAt(s: string, i: nat)
    requires NumberChars(s) && i < |s|
    ensures NumberChar(s[i])
  {
    if i < |s| - 1 { NumberCharAt(s[..|s| - 1], i); }
  }

  lemma {:induction false} DigitsAreNumberChars(s: string)
    requires AllDigits(s)
    ensures NumberChars(s)
  {
    if s != "" { DigitsAreNumberChars(s[..|s| - 1]); }
  }

  lemma FormatIntChars(i: int)
    ensures NumberChars(FormatInt(i)) && FormatInt(i) != ""
  {
    var n := if i < 0 then -i else i;
    ItoaDenotes(n);
    DigitsAreNumberChars(Itoa(n));
    assert "-"[..0] == "";
    NumberCharsConcat("-", Itoa(n));
  }

  lemma NormalTextChars(negative: bool, d: string, e: int)
    requires Number.Normal(d)
    ensures NumberChars(Number.Render(negative, d, e))
    ensures Number.Render(negative, d, e) != ""
  {
    AllDigitsSplit(d, 1);
    DigitsAreNumberChars(d[..1]);
    DigitsAreNumberChars(d[1..]);
    assert "."[..0] == "" && "e"[..0] == "" && "-"[..0] == "";
    NumberCharsConcat(d[..1], ".");
    NumberCharsConcat(d[..1] + ".", d[1..]);
    FormatIntChars(e);
    NumberCharsConcat("e", FormatInt(e));
    var m, x := Number.Mantissa(d), Number.ExponentSuffix(e);
    NumberCharsConcat(m, x);
    NumberCharsConcat(if negative then "-" else "", m + x);
  }

  lemma NumberTextChars(literal: string)
    requires Number.Accepted(literal)
    ensures NumberChars(Number.CanonicalText(literal)) && Number.CanonicalText(literal) != ""
  {
    var l := Number.MatchNumber(literal).value;
    if Number.IsZero(l) {
      assert "0"[..0] == "";
    } else {
      Number.LiteralShape(l);
      NormalTextChars(l.negative, Number.Trimmed(l).0, Number.Trimmed(l).1 + |Number.Trimmed(l).0| - 1);
    }
  }

  /** What may follow a value inside a document. */
  predicate Delimited(x: string) { x == "" || x[0] == ',' || x[0] == ']' || x[0] == '}' }

  lemma {:induction false} NumberEnds(a: string, x: string)
    requires NumberChars(a) && Delimited(x)
    ensures NumberRun(a + x) == |a|
  {
    if a == "" {
      assert a + x == x;
    } else {
      NumberCharAt(a, 0);
      NumberCharsTail(a);
      NumberEnds(a[1..], x);
      assert (a + x)[1..] == a[1..] + x;
    }
  }

  lemma {:induction false} NumberCharsTail(a: string)
    requires NumberChars(a) && a != ""
    ensures NumberChars(a[1..])
  {
    if |a| > 1 {
      NumberCharsTail(a[..|a| - 1]);
      assert a[1..][..|a| - 2] == a[..|a| - 1][1..];
    }
  }

  // ---- documents ----

  /** Every number in the document is one the number printer accepts. */
  predicate Accepted(j: Json) {
    match j
    case Num(literal) => Number.Accepted(literal)
    case Arr(items) => forall i :: 0 <= i < |items| ==> Accepted(items[i])
    case Obj(fields) => forall k :: k in fields ==> Accepted(fields[k])
    case _ => true
  }

  /** Equal up to the order of keys and the spelling of numbers. */
  ghost predicate Same(a: Json, b: Json)
    requires Accepted(a) && Accepted(b)
  {
    match (a, b)
    case (Null, Null) => true
    case (Bool(f), Bool(g)) => f == g
    case (Str(s), Str(t)) => s == t
    case (Num(l), Num(m)) => Number.Value(l) == Number.Value(m)
    case (Arr(xs), Arr(ys)) => |xs| == |ys| && forall i :: 0 <= i < |xs| ==> Same(xs[i], ys[i])
    case (Obj(m), Obj(n)) => m.Keys == n.Keys && forall k :: k in m ==> Same(m[k], n[k])
    case _ => false
  }

  // ---- key order ----

  /** Some enumeration of a set, each member once; a map has no better order. */
  ghost function Enumerate(keys: set<string>): seq<string> {
    if keys == {} then [] else var k :| k in keys; [k] + Enumerate(keys - {k})
  }

  lemma {:induction false} EnumerateOnce(keys: set<string>)
    ensures multiset(Enumerate(keys)) == multiset(keys)
    decreases keys
  {
    if keys != {} {
      var k := Enumerate(keys)[0];
      EnumerateOnce(keys - {k});
      assert multiset(keys) == multiset(keys - {k}) + multiset{k};
    }
  }

  lemma StringOrder()
    ensures Sorting.TotalPreorder(StringLe)
  {
    forall a, b ensures StringLe(a, b) || StringLe(b, a) { StringLeTotal(a, b); }
    forall a, b, c | StringLe(a, b) && StringLe(b, c) ensures StringLe(a, c) { StringLeTransitive(a, b, c); }
  }

  ghost function SortedKeys(keys: set<string>): seq<string> {
    Sorting.Sort(StringLe, Enumerate(keys))
  }

  lemma SortedKeysHold(keys: set<string>)
    ensures forall k :: k in SortedKeys(keys) <==> k in keys
  {
    EnumerateOnce(keys);
    StringOrder();
    Sorting.SortCorrect(StringLe, Enumerate(keys));
    forall k ensures k in SortedKeys(keys) <==> k in keys {
      assert k in multiset(Enumerate(keys)) <==> k in multiset(keys);
    }
  }

  /** Whatever order the keys were collected in, sorting them gives the same sequence. */
  lemma SortForgetsOrder(collected: seq<string>, keys: set<string>)
    requires multiset(collected) == multiset(keys)
    ensures Sorting.Sort(StringLe, collected) == SortedKeys(keys)
  {
    StringOrder();
    EnumerateOnce(keys);
    Sorting.SortCorrect(StringLe, collected);
    Sorting.SortCorrect(StringLe, Enumerate(keys));
    var xs := Sorting.Sort(StringLe, collected);
    forall a, b | a in xs && b in xs && StringLe(a, b) && StringLe(b, a) ensures a == b {
      StringLeAntisymmetric(a, b);
    }
    Sorting.OneArrangement(StringLe, xs, SortedKeys(keys));
  }

  // ---- the printer ----

  /** The text of an accepted document. */
  ghost function Print(j: Json): string
    requires Accepted(j)
    decreases j, 1, 0
  {
    match j
    case Null => "null"
    case Bool(flag) => if flag then "true" else "false"
    case Str(text) => Quote(text)
    case Num(literal) => Number.CanonicalText(literal)
    case Arr(items) => "[" + PrintItems(j, 0)
    case Obj(fields) =>
      SortedKeysHold(fields.Keys);
      "{" + PrintFields(j, SortedKeys(fields.Keys), 0)
  }

  function Comma(i: nat): string { if i == 0 then "" else "," }

  /** The items from i on, and the closing bracket. */
  ghost function PrintItems(j: Json, i: nat): string
    requires Accepted(j) && j.Arr? && i <= |j.items|
    decreases j, 0, |j.items| - i
  {
    if i == |j.items| then "]" else Comma(i) + (Print(j.items[i]) + PrintItems(j, i + 1))
  }

  /** The members from key i on, and the closing brace. */
  ghost function PrintFields(j: Json, keys: seq<string>, i: nat): string
    requires Accepted(j) && j.Obj? && i <= |keys|
    requires forall k :: k in keys ==> k in j.fields
    decreases j, 0, |keys| - i
  {
    if i == |keys| then "}"
    else Comma(i) + (Quote(keys[i]) + (":" + (Print(j.fields[keys[i]]) + PrintFields(j, keys, i + 1))))
  }
  // ---- reading what was printed ----

  /** The document that is read back from the printed text: every number respelled. */
  ghost function Respelled(j: Json): Json
    requires Accepted(j)
  {
    match j
    case Num(literal) => Num(Number.CanonicalText(literal))
    case Arr(items) => Arr(seq(|items|, i requires 0 <= i < |items| => Respelled(items[i])))
    case Obj(fields) => Obj(map k | k in fields :: Respelled(fields[k]))
    case _ => j
  }

  /** The first character tells the kind of the value. */
  lemma FirstChar(j: Json)
    requires Accepted(j)
    ensures Print(j) != ""
    ensures var c := Print(j)[0];
            match j
            case Null => c == 'n'
            case Bool(flag) => c == if flag then 't' else 'f'
            case Str(_) => c == '"'
            case Num(_) => IsDigit(c) || c == '-'
            case Arr(_) => c == '['
            case Obj(_) => c == '{'
  {
    if j.Num? { Number.CanonicalStart(j.literal); }
  }

  /** What a value starts with is no space, and neither a comma nor a closing bracket. */
  lemma StartsAtOnce(j: Json, x: string)
    requires Accepted(j)
    ensures var s := Print(j) + x;
            s != "" && s[0] == Print(j)[0] && SkipSpace(s) == s && s[0] != ']' && s[0] != '}' && s[0] != ','
  {
    hide Print;
    FirstChar(j);
  }

  lemma ReadNumberText(literal: string, x: string)
    requires Number.Accepted(literal) && Delimited(x)
    ensures ReadNumber(Number.CanonicalText(literal) + x) == Some((Num(Number.CanonicalText(literal)), x))
  {
    hide Number.CanonicalText, Number.Accepted, Number.MatchNumber, NumberChars, Number.Value;
    var a := Number.CanonicalText(literal);
    NumberTextChars(literal);
    NumberEnds(a, x);
    Number.CanonicalKeepsValue(literal);
    assert (a + x)[..|a|] == a && (a + x)[|a|..] == x;
  }

  lemma ReadWordText(word: string, x: string, value: Json)
    requires word != ""
    ensures ReadWord(word + x, word, value) == Some((value, x))
  {
    assert (word + x)[..|word|] == word && (word + x)[|word|..] == x;
  }

  lemma {:induction false} ReadPrinted(j: Json, x: string)
    requires Accepted(j) && Delimited(x)
    ensures ReadValue(Print(j) + x) == Some((Respelled(j), x))
    decreases j, 1, 0
  {
    hide Number.CanonicalText, Delimited, ReadChars, ReadItems, ReadFields, ReadNumber, ReadWord, PrintItems, PrintFields, SortedKeys, Quote;
    StartsAtOnce(j, x);
    FirstChar(j);
    match j
    case Null => ReadWordText("null", x, Null);
    case Bool(flag) => ReadWordText(if flag then "true" else "false", x, j);
    case Str(text) => ReadStringText(text, x);
    case Num(literal) => ReadNumberText(literal, x);
    case Arr(items) =>
      OpenSplit("[", PrintItems(j, 0), x);
      ReadPrintedItems(j, 0, x);
      assert RespelledItems(j, 0) == Respelled(j).items;
    case Obj(fields) =>
      SortedKeysHold(fields.Keys);
      var keys := SortedKeys(fields.Keys);
      OpenSplit("{", PrintFields(j, keys, 0), x);
      ReadPrintedFields(j, keys, 0, x);
      assert RespelledFields(j, keys, 0) == Respelled(j).fields;
  }

  lemma ReadStringText(text: string, x: string)
    ensures (Quote(text) + x)[0] == '"'
    ensures ReadChars((Quote(text) + x)[1..]) == Some((text, x))
  {
    hide EncodeChars, ReadChars;
    QuoteSplit(text, x);
    ReadQuoted(text, x);
    assert ("\"" + (EncodeChars(text) + ("\"" + x)))[1..] == EncodeChars(text) + ("\"" + x);
  }

  lemma OpenSplit(open: string, r: string, x: string)
    requires |open| == 1
    ensures (open + r + x)[1..] == r + x && (open + r + x)[0] == open[0]
  {
  }

  ghost function RespelledItems(j: Json, i: nat): seq<Json>
    requires Accepted(j) && j.Arr? && i <= |j.items|
  {
    Respelled(j).items[i..]
  }

  lemma ItemsSplit(j: Json, i: nat, x: string)
    requires Accepted(j) && j.Arr? && i < |j.items|
    ensures PrintItems(j, i) + x == Comma(i) + (Print(j.items[i]) + (PrintItems(j, i + 1) + x))
  {
    hide Print;
    var p, r := Print(j.items[i]), PrintItems(j, i + 1);
    assert Comma(i) + (p + r) + x == Comma(i) + (p + (r + x));
  }

  lemma ItemsDelimit(j: Json, i: nat, x: string)
    requires Accepted(j) && j.Arr? && 0 < i <= |j.items|
    ensures Delimited(PrintItems(j, i) + x)
  {
    hide Print;
    if i < |j.items| { ItemsSplit(j, i, x); }
  }

  /** A separator in front of a value is read off. */
  lemma ReadCommaText(i: nat, r: string)
    requires r != "" && SkipSpace(r) == r && r[0] != ']' && r[0] != '}'
    ensures var s := Comma(i) + r;
            SkipSpace(s) == s && s != "" && s[0] != ']' && s[0] != '}' && ReadComma(s, i == 0) == Some(r)
  {
    if i == 0 {
      assert "" + r == r;
    } else {
      assert ("," + r)[1..] == r;
    }
  }

  lemma ReadItemsEnd(x: string, first: bool)
    ensures ReadItems("]" + x, first) == Some(([], x))
  {
    assert ("]" + x)[1..] == x;
  }

  lemma ReadItemsStep(s: string, first: bool, r: string, item: Json, v: string, items: seq<Json>, rest: string)
    requires s != "" && SkipSpace(s) == s && s[0] != ']'
    requires ReadComma(s, first) == Some(r) && ReadValue(r) == Some((item, v))
    requires ReadItems(v, false) == Some((items, rest))
    ensures ReadItems(s, first) == Some(([item] + items, rest))
  {
    hide ReadValue, ReadComma;
  }

  /** The text from item i on: a separator, and the item before the rest. */
  lemma ItemText(j: Json, i: nat, x: string)
    requires Accepted(j) && j.Arr? && i < |j.items|
    ensures var s, r := PrintItems(j, i) + x, Print(j.items[i]) + (PrintItems(j, i + 1) + x);
            s != "" && SkipSpace(s) == s && s[0] != ']' && ReadComma(s, i == 0) == Some(r)
  {
    var more := PrintItems(j, i + 1) + x;
    ItemsSplit(j, i, x);
    StartsAtOnce(j.items[i], more);
    hide *;
    ReadCommaText(i, Print(j.items[i]) + more);
  }

  lemma {:induction false} ReadPrintedItems(j: Json, i: nat, x: string)
    requires Accepted(j) && j.Arr? && i <= |j.items|
    ensures ReadItems(PrintItems(j, i) + x, i == 0) == Some((RespelledItems(j, i), x))
    decreases j, 0, |j.items| - i
  {
    if i == |j.items| {
      LastItem(j, x);
    } else {
      RespelledItem(j, i);
      hide *;
      var item, more := j.items[i], PrintItems(j, i + 1) + x;
      ItemText(j, i, x);
      ItemsDelimit(j, i + 1, x);
      ReadPrinted(item, more);
      ReadPrintedItems(j, i + 1, x);
      ReadItemsStep(PrintItems(j, i) + x, i == 0, Print(item) + more, Respelled(item), more, RespelledItems(j, i + 1), x);
    }
  }

  lemma LastItem(j: Json, x: string)
    requires Accepted(j) && j.Arr?
    ensures ReadItems(PrintItems(j, |j.items|) + x, |j.items| == 0) == Some((RespelledItems(j, |j.items|), x))
  {
    hide ReadItems;
    ReadItemsEnd(x, |j.items| == 0);
    assert RespelledItems(j, |j.items|) == [];
  }

  lemma RespelledItem(j: Json, i: nat)
    requires Accepted(j) && j.Arr? && i < |j.items|
    ensures Accepted(j.items[i])
    ensures RespelledItems(j, i) == [Respelled(j.items[i])] + RespelledItems(j, i + 1)
  {
  }

  /** The members from key i on. */
  ghost function RespelledFields(j: Json, keys: seq<string>, i: nat): map<string, Json>
    requires Accepted(j) && j.Obj? && i <= |keys|
    requires forall k :: k in keys ==> k in j.fields
  {
    map k | k in keys[i..] :: Respelled(j.fields[k])
  }

  lemma FieldsSplit(j: Json, keys: seq<string>, i: nat, x: string)
    requires Accepted(j) && j.Obj? && i < |keys| && forall k :: k in keys ==> k in j.fields
    ensures PrintFields(j, keys, i) + x
         == Comma(i) + (Quote(keys[i]) + (":" + (Print(j.fields[keys[i]]) + (PrintFields(j, keys, i + 1) + x))))
  {
    hide Print, Quote;
    FieldParts(Comma(i), Quote(keys[i]), Print(j.fields[keys[i]]), PrintFields(j, keys, i + 1), x);
  }

  lemma FieldParts(c: string, q: string, p: string, r: string, x: string)
    ensures c + (q + (":" + (p + r))) + x == c + (q + (":" + (p + (r + x))))
  {
    assert p + r + x == p + (r + x);
    assert ":" + (p + r) + x == ":" + (p + r + x);
    assert q + (":" + (p + r)) + x == q + (":" + (p + r) + x);
  }

  lemma FieldsDelimit(j: Json, keys: seq<string>, i: nat, x: string)
    requires Accepted(j) && j.Obj? && 0 < i <= |keys| && forall k :: k in keys ==> k in j.fields
    ensures Delimited(PrintFields(j, keys, i) + x)
  {
    hide Print, Quote;
    if i < |keys| { FieldsSplit(j, keys, i, x); }
  }

  lemma ReadKeyText(key: string, x: string)
    ensures var s := Quote(key) + (":" + x);
            s[0] == '"' && SkipSpace(s) == s && ReadKey(s) == Some((key, x))
  {
    hide Quote, ReadChars;
    assert |Quote(key)| > 0 by { QuoteSplit(key, ""); }
    ReadStringText(key, ":" + x);
    assert (":" + x)[1..] == x;
  }

  lemma ReadFieldsEnd(x: string, first: bool)
    ensures ReadFields("}" + x, first) == Some((map[], x))
  {
    assert ("}" + x)[1..] == x;
  }

  lemma ReadFieldsStep(s: string, first: bool, r: string, key: string, v: string, value: Json, w: string,
                       fields: map<string, Json>, rest: string)
    requires s != "" && SkipSpace(s) == s && s[0] != '}'
    requires ReadComma(s, first) == Some(r) && ReadKey(r) == Some((key, v)) && ReadValue(v) == Some((value, w))
    requires ReadFields(w, false) == Some((fields, rest))
    ensures ReadFields(s, first) == Some((map[key := value] + fields, rest))
  {
    hide ReadValue, ReadComma, ReadKey;
  }

  /** The text from key i on: a separator, the key, and the value before the rest. */
  lemma FieldText(j: Json, keys: seq<string>, i: nat, x: string) returns (r: string)
    requires Accepted(j) && j.Obj? && i < |keys| && forall k :: k in keys ==> k in j.fields
    ensures var s := PrintFields(j, keys, i) + x;
            && s != "" && SkipSpace(s) == s && s[0] != '}' && ReadComma(s, i == 0) == Some(r)
            && ReadKey(r) == Some((keys[i], Print(j.fields[keys[i]]) + (PrintFields(j, keys, i + 1) + x)))
  {
    var tail := Print(j.fields[keys[i]]) + (PrintFields(j, keys, i + 1) + x);
    r := Quote(keys[i]) + (":" + tail);
    FieldsSplit(j, keys, i, x);
    hide *;
    ReadKeyText(keys[i], tail);
    ReadCommaText(i, r);
  }

  lemma {:induction false} ReadPrintedFields(j: Json, keys: seq<string>, i: nat, x: string)
    requires Accepted(j) && j.Obj? && i <= |keys| && forall k :: k in keys ==> k in j.fields
    ensures ReadFields(PrintFields(j, keys, i) + x, i == 0) == Some((RespelledFields(j, keys, i), x))
    decreases j, 0, |keys| - i
  {
    if i == |keys| {
      LastField(j, keys, x);
    } else {
      RespelledField(j, keys, i);
      hide *;
      var value, more := j.fields[keys[i]], PrintFields(j, keys, i + 1) + x;
      var r := FieldText(j, keys, i, x);
      FieldsDelimit(j, keys, i + 1, x);
      ReadPrinted(value, more);
      ReadPrintedFields(j, keys, i + 1, x);
      ReadFieldsStep(PrintFields(j, keys, i) + x, i == 0, r, keys[i], Print(value) + more,
                     Respelled(value), more, RespelledFields(j, keys, i + 1), x);
    }
  }

  lemma LastField(j: Json, keys: seq<string>, x: string)
    requires Accepted(j) && j.Obj? && forall k :: k in keys ==> k in j.fields
    ensures ReadFields(PrintFields(j, keys, |keys|) + x, |keys| == 0) == Some((RespelledFields(j, keys, |keys|), x))
  {
    hide ReadFields;
    ReadFieldsEnd(x, |keys| == 0);
    assert RespelledFields(j, keys, |keys|) == map[];
  }

  lemma RespelledField(j: Json, keys: seq<string>, i: nat)
    requires Accepted(j) && j.Obj? && i < |keys| && forall k :: k in keys ==> k in j.fields
    ensures Accepted(j.fields[keys[i]])
    ensures RespelledFields(j, keys, i)
         == map[keys[i] := Respelled(j.fields[keys[i]])] + RespelledFields(j, keys, i + 1)
  {
    hide Respelled;
    assert keys[i..] == [keys[i]] + keys[i + 1..];
  }

  /** Printing and reading: the document comes back with its numbers respelled. */
  lemma DecodePrinted(j: Json)
    requires Accepted(j)
    ensures Decode(Print(j)) == Some(Respelled(j))
  {
    ReadPrinted(j, "");
    assert Print(j) + "" == Print(j);
  }

  // ---- equal text, equal meaning ----

  /** Respelling forgets exactly what `Same` forgets. */
  lemma {:induction false} RespelledEqual(a: Json, b: Json)
    requires Accepted(a) && Accepted(b) && Respelled(a) == Respelled(b)
    ensures Same(a, b)
  {
    hide Number.CanonicalText;
    match a
    case Num(literal) => Number.CanonicalDecidesValue(literal, b.literal);
    case Arr(items) =>
      forall i | 0 <= i < |items| ensures Same(items[i], b.items[i]) {
        assert Respelled(a).items[i] == Respelled(items[i]) && Respelled(b).items[i] == Respelled(b.items[i]);
        RespelledEqual(items[i], b.items[i]);
      }
    case Obj(fields) =>
      assert Respelled(a).fields.Keys == fields.Keys && Respelled(b).fields.Keys == b.fields.Keys;
      forall k | k in fields ensures k in b.fields && Same(fields[k], b.fields[k]) {
        assert Respelled(a).fields[k] == Respelled(fields[k]) && Respelled(b).fields[k] == Respelled(b.fields[k]);
        RespelledEqual(fields[k], b.fields[k]);
      }
    case _ =>
  }

  /** A printed value can be read off the front of any text that may follow it. */
  lemma PrintPrefix(a: Json, x: string, b: Json, y: string)
    requires Accepted(a) && Accepted(b) && Delimited(x) && Delimited(y)
    requires Print(a) + x == Print(b) + y
    ensures Same(a, b) && x == y
  {
    hide Print, Same, Delimited, Accepted, ReadValue, Respelled;
    ReadPrinted(a, x);
    ReadPrinted(b, y);
    RespelledEqual(a, b);
  }

  // ---- the printer is a function of the meaning ----

  lemma {:induction false} SamePrints(a: Json, b: Json)
    requires Accepted(a) && Accepted(b) && Same(a, b)
    ensures Print(a) == Print(b)
    decreases a, 1, 0
  {
    hide Quote, PrintItems, PrintFields, SortedKeys, Number.CanonicalText;
    match a
    case Num(literal) => Number.CanonicalDecidesValue(literal, b.literal);
    case Arr(items) => SameItemsPrint(a, b, 0);
    case Obj(fields) =>
      SortedKeysHold(fields.Keys);
      assert b.fields.Keys == fields.Keys;
      SameFieldsPrint(a, b, SortedKeys(fields.Keys), 0);
    case _ =>
  }

  lemma {:induction false} SameItemsPrint(a: Json, b: Json, i: nat)
    requires Accepted(a) && a.Arr? && Accepted(b) && b.Arr? && Same(a, b) && i <= |a.items|
    ensures PrintItems(a, i) == PrintItems(b, i)
    decreases a, 0, |a.items| - i
  {
    hide Print;
    if i < |a.items| {
      SamePrints(a.items[i], b.items[i]);
      SameItemsPrint(a, b, i + 1);
    }
  }

  lemma {:induction false} SameFieldsPrint(a: Json, b: Json, keys: seq<string>, i: nat)
    requires Accepted(a) && a.Obj? && Accepted(b) && b.Obj? && Same(a, b) && i <= |keys|
    requires forall k :: k in keys ==> k in a.fields && k in b.fields
    ensures PrintFields(a, keys, i) == PrintFields(b, keys, i)
    decreases a, 0, |keys| - i
  {
    hide Print, Quote;
    if i < |keys| {
      SamePrints(a.fields[keys[i]], b.fields[keys[i]]);
      SameFieldsPrint(a, b, keys, i + 1);
    }
  }

  /** Equal text exactly for documents equal up to key order and number spelling. */
  lemma PrintDecidesSameness(a: Json, b: Json)
    requires Accepted(a) && Accepted(b)
    ensures Print(a) == Print(b) <==> Same(a, b)
  {
    hide Print, Same, Accepted;
    if Same(a, b) {
      SamePrints(a, b);
    } else if Print(a) == Print(b) {
      PrintPrefix(a, "", b, "");
    }
  }

  // ---- printing what was printed ----

  /** Every number is 0 or has a scientific exponent of 32 bits. */
  predicate Stable(j: Json)
    requires Accepted(j)
  {
    match j
    case Num(literal) =>
      var l := Number.MatchNumber(literal).value;
      Number.IsZero(l) || Number.FitsInt32(Number.ScientificExponent(l))
    case Arr(items) => forall i :: 0 <= i < |items| ==> Stable(items[i])
    case Obj(fields) => forall k :: k in fields ==> Stable(fields[k])
    case _ => true
  }

  lemma RespelledNumber(literal: string)
    requires Number.Accepted(literal)
    ensures Accepted(Num(Number.CanonicalText(literal))) <==> Stable(Num(literal))
    ensures Stable(Num(literal)) ==> Same(Num(literal), Num(Number.CanonicalText(literal)))
  {
    hide Number.CanonicalText, Number.MatchNumber, Number.Value;
    Number.CanonicalIdempotent(literal);
    Number.CanonicalKeepsValue(literal);
  }

  lemma {:induction false} RespelledSame(j: Json)
    requires Accepted(j)
    ensures Accepted(Respelled(j)) <==> Stable(j)
    ensures Stable(j) ==> Same(j, Respelled(j))
  {
    hide Number.CanonicalText, Number.MatchNumber, Number.Value, Number.IsZero, Number.FitsInt32;
    match j
    case Num(literal) => RespelledNumber(literal);
    case Arr(items) =>
      forall i | 0 <= i < |items|
        ensures Accepted(Respelled(items[i])) <==> Stable(items[i])
        ensures Stable(items[i]) ==> Same(items[i], Respelled(items[i]))
      {
        RespelledSame(items[i]);
      }
      assert forall i :: 0 <= i < |items| ==> Respelled(j).items[i] == Respelled(items[i]);
    case Obj(fields) =>
      forall k | k in fields
        ensures Accepted(Respelled(fields[k])) <==> Stable(fields[k])
        ensures Stable(fields[k]) ==> Same(fields[k], Respelled(fields[k]))
      {
        RespelledSame(fields[k]);
      }
      assert forall k :: k in fields ==> Respelled(j).fields[k] == Respelled(fields[k]);
    case _ =>
  }

  /** The canonical form of payload bytes; None when they are no document or a number is refused. */
  ghost function CanonicalBytes(payload: string): Option<string> {
    match Decode(payload)
    case None => None
    case Some(j) => if Accepted(j) then Some(Print(j)) else None
  }

  /**
   * A canonical text is canonical again exactly when all numbers of the document stay in
   * range; any other document has a canonical text that is refused when it is read again.
   */
  lemma CanonicalBytesAgain(payload: string)
    requires CanonicalBytes(payload).Some?
    ensures var text := CanonicalBytes(payload).value;
            CanonicalBytes(text) == if Stable(Decode(payload).value) then Some(text) else None
  {
    hide Print, Same, Stable, Accepted, Decode, Respelled;
    var j := Decode(payload).value;
    DecodePrinted(j);
    RespelledSame(j);
    if Stable(j) { PrintDecidesSameness(j, Respelled(j)); }
  }

  // ---- the source's printer ----

  class Buffer {
    var text: string

    constructor ()
      ensures text == ""
    {
      text := "";
    }

    method Write(s: string)
      modifies this
      ensures text == old(text) + s
    {
      text := text + s;
    }
  }

  /** The keys of a map in whatever order its iteration yields them. */
  method CollectKeys(keys: set<string>) returns (collected: seq<string>)
    ensures multiset(collected) == multiset(keys)
  {
    var rest := keys;
    collected := [];
    while rest != {}
      invariant rest <= keys
      invariant multiset(collected) == multiset(keys - rest)
      decreases rest
    {
      var k :| k in rest;
      assert keys - (rest - {k}) == (keys - rest) + {k};
      collected := collected + [k];
      rest := rest - {k};
    }
    assert keys - rest == keys;
  }

  method CollectSortedKeys(keys: set<string>) returns (sorted: seq<string>)
    ensures sorted == SortedKeys(keys)
  {
    var collected := CollectKeys(keys);
    sorted := Sorting.Sort(StringLe, collected);
    SortForgetsOrder(collected, keys);
  }

  /** Fails exactly when some number is refused; otherwise appends the canonical text. */
  method AppendCanonicalJson(output: Buffer, value: Json) returns (error: Option<Number.NumberError>)
    modifies output
    ensures error.None? <==> Accepted(value)
    ensures error.None? ==> output.text == old(output.text) + Print(value)
    decreases value
  {
    hide Quote, SortedKeys, PrintItems, PrintFields, Number.CanonicalText;
    error := None;
    match value
    case Null => output.Write("null");
    case Bool(flag) => output.Write(if flag then "true" else "false");
    case Str(text) => output.Write(Quote(text));
    case Num(literal) =>
      var number := Number.CanonicalRecoveryJsonNumber(literal);
      if number.Err? { return Some(number.error); }
      output.Write(number.value);
    case Arr(items) => error := AppendItems(output, value);
    case Obj(fields) => error := AppendFields(output, value);
  }

  /** The i items printed so far and the rest make up the whole list. */
  ghost predicate ItemsPrinted(value: Json, i: nat, printed: string)
    requires value.Arr? && i <= |value.items|
  {
    Accepted(value) ==> printed + PrintItems(value, i) == PrintItems(value, 0)
  }

  lemma ItemPrinted(value: Json, i: nat, printed: string, comma: string, item: string)
    requires value.Arr? && i < |value.items| && ItemsPrinted(value, i, printed)
    requires comma == Comma(i) && Accepted(value.items[i]) && item == Print(value.items[i])
    ensures ItemsPrinted(value, i + 1, printed + (comma + item))
  {
    hide Print;
    if Accepted(value) {
      var r := PrintItems(value, i + 1);
      assert printed + (comma + (item + r)) == printed + (comma + item) + r;
    }
  }

  lemma Reassociate(before: string, open: string, printed: string, more: string)
    ensures before + (open + printed) + more == before + (open + (printed + more))
  {
  }

  method AppendItems(output: Buffer, value: Json) returns (error: Option<Number.NumberError>)
    requires value.Arr?
    modifies output
    ensures error.None? <==> Accepted(value)
    ensures error.None? ==> output.text == old(output.text) + ("[" + PrintItems(value, 0))
    decreases value, 0
  {
    hide Print, PrintItems, ItemsPrinted;
    ghost var before := output.text;
    output.Write("[");
    ghost var printed := "";
    NothingPrinted(value);
    var i := 0;
    while i < |value.items|
      invariant i <= |value.items|
      invariant forall k :: 0 <= k < i ==> Accepted(value.items[k])
      invariant output.text == before + ("[" + printed)
      invariant ItemsPrinted(value, i, printed)
    {
      ghost var sofar := output.text;
      if i != 0 { output.Write(","); }
      assert output.text == sofar + Comma(i);
      error := AppendCanonicalJson(output, value.items[i]);
      if error.Some? { return; }
      ghost var item := Print(value.items[i]);
      ItemPrinted(value, i, printed, Comma(i), item);
      assert sofar + Comma(i) + item == sofar + (Comma(i) + item);
      Reassociate(before, "[", printed, Comma(i) + item);
      printed := printed + (Comma(i) + item);
      i := i + 1;
    }
    output.Write("]");
    error := None;
    AllPrinted(value, printed);
    Reassociate(before, "[", printed, "]");
  }

  lemma NothingPrinted(value: Json)
    requires value.Arr?
    ensures ItemsPrinted(value, 0, "")
  {
    if Accepted(value) { assert "" + PrintItems(value, 0) == PrintItems(value, 0); }
  }

  lemma AllPrinted(value: Json, printed: string)
    requires value.Arr? && Accepted(value) && ItemsPrinted(value, |value.items|, printed)
    ensures printed + "]" == PrintItems(value, 0)
  {
  }

  /** The i members printed so far and the rest make up the whole object. */
  ghost predicate FieldsPrinted(value: Json, keys: seq<string>, i: nat, printed: string)
    requires value.Obj? && i <= |keys| && forall k :: k in keys ==> k in value.fields
  {
    Accepted(value) ==> printed + PrintFields(value, keys, i) == PrintFields(value, keys, 0)
  }

  lemma FieldPrinted(value: Json, keys: seq<string>, i: nat, printed: string, comma: string, key: string, item: string)
    requires value.Obj? && i < |keys| && forall k :: k in keys ==> k in value.fields
    requires FieldsPrinted(value, keys, i, printed)
    requires comma == Comma(i) && key == Quote(keys[i])
    requires Accepted(value.fields[keys[i]]) && item == Print(value.fields[keys[i]])
    ensures FieldsPrinted(value, keys, i + 1, printed + (comma + (key + (":" + item))))
  {
    hide Print, Quote;
    if Accepted(value) {
      var r := PrintFields(value, keys, i + 1);
      assert printed + (comma + (key + (":" + (item + r)))) == printed + (comma + (key + (":" + item))) + r;
    }
  }

  /** One member: its separator, its key and its value. */
  method AppendField(output: Buffer, value: Json, key: string, i: nat) returns (error: Option<Number.NumberError>)
    requires value.Obj? && key in value.fields
    modifies output
    ensures error.None? <==> Accepted(value.fields[key])
    ensures error.None? ==>
      output.text == old(output.text) + (Comma(i) + (Quote(key) + (":" + Print(value.fields[key]))))
    decreases value, 0
  {
    hide Print, Quote;
    ghost var before, quoted := output.text, Quote(key);
    if i != 0 { output.Write(","); }
    assert output.text == before + Comma(i);
    output.Write(Quote(key));
    output.Write(":");
    error := AppendCanonicalJson(output, value.fields[key]);
    if error.None? {
      var item := Print(value.fields[key]);
      assert before + Comma(i) + quoted + ":" + item == before + (Comma(i) + (quoted + (":" + item)));
    }
  }

  method AppendFields(output: Buffer, value: Json) returns (error: Option<Number.NumberError>)
    requires value.Obj?
    modifies output
    ensures error.None? <==> Accepted(value)
    ensures error.None? ==> output.text == old(output.text) + Print(value)
    decreases value, 1
  {
    hide Print, PrintFields, FieldsPrinted, Quote, SortedKeys;
    var keys := CollectSortedKeys(value.fields.Keys);
    SortedKeysHold(value.fields.Keys);
    ghost var before := output.text;
    output.Write("{");
    ghost var printed := "";
    NoFieldPrinted(value, keys);
    var i := 0;
    while i < |keys|
      invariant i <= |keys|
      invariant forall k :: 0 <= k < i ==> Accepted(value.fields[keys[k]])
      invariant output.text == before + ("{" + printed)
      invariant FieldsPrinted(value, keys, i, printed)
    {
      error := AppendField(output, value, keys[i], i);
      if error.Some? { return; }
      ghost var key, item := Quote(keys[i]), Print(value.fields[keys[i]]);
      FieldPrinted(value, keys, i, printed, Comma(i), key, item);
      ghost var member := Comma(i) + (key + (":" + item));
      Reassociate(before, "{", printed, member);
      printed := printed + member;
      i := i + 1;
    }
    output.Write("}");
    error := None;
    AllKeysAccepted(value, keys);
    AllFieldsPrinted(value, keys, printed);
    PrintObject(value, keys);
    Reassociate(before, "{", printed, "}");
  }

  lemma NoFieldPrinted(value: Json, keys: seq<string>)
    requires value.Obj? && forall k :: k in keys ==> k in value.fields
    ensures FieldsPrinted(value, keys, 0, "")
  {
    if Accepted(value) { assert "" + PrintFields(value, keys, 0) == PrintFields(value, keys, 0); }
  }

  lemma AllKeysAccepted(value: Json, keys: seq<string>)
    requires value.Obj? && forall k :: k in keys <==> k in value.fields
    requires forall i :: 0 <= i < |keys| ==> Accepted(value.fields[keys[i]])
    ensures Accepted(value)
  {
    forall k | k in value.fields ensures Accepted(value.fields[k]) {
      assert k in keys;
      var n :| 0 <= n < |keys| && keys[n] == k;
    }
  }

  lemma PrintObject(value: Json, keys: seq<string>)
    requires value.Obj? && Accepted(value) && keys == SortedKeys(value.fields.Keys)
    requires forall k :: k in keys ==> k in value.fields
    ensures Print(value) == "{" + PrintFields(value, keys, 0)
  {
  }

  lemma AllFieldsPrinted(value: Json, keys: seq<string>, printed: string)
    requires value.Obj? && Accepted(value) && forall k :: k in keys ==> k in value.fields
    requires FieldsPrinted(value, keys, |keys|, printed)
    ensures printed + "}" == PrintFields(value, keys, 0)
  {
  }

  // ---- payloads ----

  datatype PayloadError = InvalidJson | BadNumber(error: Number.NumberError)

  /** The canonical bytes of a payload, or an error exactly when it has none. */
  method CanonicalRecoveryJson(payload: string) returns (r: Result<string, PayloadError>)
    ensures match r
            case Ok(text) => CanonicalBytes(payload) == Some(text)
            case Err(e) => CanonicalBytes(payload).None? && (e.InvalidJson? <==> Decode(payload).None?)
  {
    hide Print, Accepted, Decode;
    var value := Decode(payload);
    if value.None? { return Err(InvalidJson); }
    var output := new Buffer();
    var error := AppendCanonicalJson(output, value.value);
    if error.Some? { return Err(BadNumber(error.value)); }
    assert "" + Print(value.value) == Print(value.value);
    r := Ok(output.text);
  }

  ghost predicate SamePayload(left: string, right: string) {
    if left == "" || right == "" then |left| == |right|
    else if CanonicalBytes(left).None? || CanonicalBytes(right).None? then left == right
    else CanonicalBytes(left) == CanonicalBytes(right)
  }

  method EqualRestoreJson(left: string, right: string) returns (equal: bool)
    ensures equal <==> SamePayload(left, right)
  {
    hide CanonicalBytes, Decode;
    if left == "" || right == "" { return |left| == |right|; }
    var leftCanonical := CanonicalRecoveryJson(left);
    var rightCanonical := CanonicalRecoveryJson(right);
    if leftCanonical.Err? || rightCanonical.Err? { return left == right; }
    equal := leftCanonical.value == rightCanonical.value;
  }

  /** Two readable payloads are equal exactly when they mean the same. */
  lemma SamePayloadMeaning(left: string, right: string)
    requires CanonicalBytes(left).Some? && CanonicalBytes(right).Some?
    ensures SamePayload(left, right) <==> Same(Decode(left).value, Decode(right).value)
  {
    hide Print, Same, Accepted;
    EmptyIsNone();
    PrintDecidesSameness(Decode(left).value, Decode(right).value);
  }

  lemma EmptyIsNone()
    ensures Decode("").None?
  {
  }

  /** An object of one number, as a caller may spell it. */
  function Wrapped(literal: string): string { "{" + (Quote("a") + (":" + (literal + "}"))) }

  lemma DecodeWrapped(literal: string)
    requires literal != "" && NumberChars(literal) && Number.MatchNumber(literal).Some?
    ensures Decode(Wrapped(literal)) == Some(Obj(map["a" := Num(literal)]))
  {
    hide NumberChars, Number.MatchNumber, ReadKey, Quote, NumberRun, NumberChar;
    var value := literal + "}";
    var member := Quote("a") + (":" + value);
    ReadKeyText("a", value);
    assert Wrapped(literal)[1..] == member;
    assert ReadValue(value) == Some((Num(literal), "}")) by {
      NumberEnds(literal, "}");
      NumberStarts(literal, "}");
      assert value[..|literal|] == literal && value[|literal|..] == "}";
    }
    assert "}"[1..] == "";
    assert ReadFields("}", false) == Some((map[], ""));
    assert ReadFields(member, true) == Some((map["a" := Num(literal)] + map[], ""));
    assert map["a" := Num(literal)] + map[] == map["a" := Num(literal)];
  }

  /** A number literal starts with a digit or its sign. */
  lemma NumberStarts(literal: string, x: string)
    requires Number.MatchNumber(literal).Some?
    ensures var s := literal + x;
            s != "" && SkipSpace(s) == s && s[0] !in {'n', 't', 'f', '"', '[', '{'}
  {
  }

  /** The comparison is an equivalence on all payloads, readable or not. */
  lemma SamePayloadEquivalence(a: string, b: string, c: string)
    ensures SamePayload(a, a)
    ensures SamePayload(a, b) ==> SamePayload(b, a)
    ensures SamePayload(a, b) && SamePayload(b, c) ==> SamePayload(a, c)
  {
    hide CanonicalBytes;
  }
}
