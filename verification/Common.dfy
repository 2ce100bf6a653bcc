/** Datatypes and arithmetic shared by the components. */
module Common {

  datatype Option<+T> = None | Some(value: T)

  datatype Result<+T, +E> = Ok(value: T) | Err(error: E)

  /** A call to a store may fail before or after its write took effect. */
  datatype Reply = Done | Lost | Unclear

  function Min(a: int, b: int): int { if a <= b then a else b }

  function Max(a: int, b: int): int { if a >= b then a else b }
}

/** Decimal text and the byte order of strings, as Go's fmt, strconv and `<` treat them. */
module Text {

  predicate IsDigit(c: char) { '0' <= c <= '9' }

  predicate AllDigits(s: string) {
    s == "" || (IsDigit(s[|s| - 1]) && AllDigits(s[..|s| - 1]))
  }

  lemma {:induction false} AllDigitsConcat(a: string, b: string)
    ensures AllDigits(a + b) <==> AllDigits(a) && AllDigits(b)
  {
    if b == "" {
      assert a + b == a;
    } else {
      assert (a + b)[..|a + b| - 1] == a + b[..|b| - 1];
      AllDigitsConcat(a, b[..|b| - 1]);
    }
  }

  lemma AllDigitsSplit(s: string, n: nat)
    requires n <= |s|
    ensures AllDigits(s) <==> AllDigits(s[..n]) && AllDigits(s[n..])
  {
    assert s[..n] + s[n..] == s;
    AllDigitsConcat(s[..n], s[n..]);
  }

  lemma AllDigitsFirst(s: string)
    requires AllDigits(s) && s != ""
    ensures IsDigit(s[0]) && AllDigits(s[1..])
  {
    AllDigitsSplit(s, 1);
  }

  function DigitOf(c: char): nat
    requires IsDigit(c)
  {
    c as int - '0' as int
  }

  function DigitChar(d: nat): (c: char)
    requires d < 10
    ensures IsDigit(c) && DigitOf(c) == d
  {
    ('0' as int + d) as char
  }

  /** The number a string of decimal digits denotes; the empty string denotes 0. */
  function NatOf(s: string): nat
    requires AllDigits(s)
  {
    if s == "" then 0 else 10 * NatOf(s[..|s| - 1]) + DigitOf(s[|s| - 1])
  }

  /** `%d` of a natural number. */
  function Itoa(n: nat): string {
    if n < 10 then [DigitChar(n)] else Itoa(n / 10) + [DigitChar(n % 10)]
  }

  /** `%d` of an integer. */
  function FormatInt(i: int): string {
    if i < 0 then "-" + Itoa(-i) else Itoa(i)
  }

  lemma {:induction false} ItoaDenotes(n: nat)
    ensures Itoa(n) != "" && AllDigits(Itoa(n)) && NatOf(Itoa(n)) == n
    ensures Itoa(n)[0] == '0' ==> Itoa(n) == "0"
  {
    if n >= 10 {
      ItoaDenotes(n / 10);
      NatOfSnoc(Itoa(n / 10), DigitChar(n % 10));
    }
  }

  lemma {:induction false} NatOfSnoc(s: string, c: char)
    requires AllDigits(s) && IsDigit(c)
    ensures AllDigits(s + [c]) && NatOf(s + [c]) == 10 * NatOf(s) + DigitOf(c)
  {
    assert (s + [c])[..|s|] == s;
  }

  /** A digit string that starts with a non-zero digit denotes a positive number. */
  lemma {:induction false} NatOfPositive(s: string)
    requires AllDigits(s) && s != "" && s[0] != '0'
    ensures NatOf(s) > 0
  {
    if |s| > 1 { NatOfPositive(s[..|s| - 1]); }
  }

  /** Without leading zeros, the denoted number determines the digits. */
  lemma {:induction false} NatOfInjective(a: string, b: string)
    requires AllDigits(a) && AllDigits(b)
    requires a == "" || a[0] != '0'
    requires b == "" || b[0] != '0'
    requires NatOf(a) == NatOf(b)
    ensures a == b
  {
    if a == "" {
      if b != "" { NatOfPositive(b); }
    } else if b == "" {
      NatOfPositive(a);
    } else {
      var m, n := |a| - 1, |b| - 1;
      assert DigitOf(a[m]) == NatOf(a) % 10 == DigitOf(b[n]);
      NatOfInjective(a[..m], b[..n]);
      assert a == a[..m] + [a[m]] && b == b[..n] + [b[n]];
    }
  }

  lemma ItoaStart(n: nat)
    ensures Itoa(n) != "" && IsDigit(Itoa(n)[0])
  {
    ItoaDenotes(n);
    AllDigitsFirst(Itoa(n));
  }

  lemma ItoaInjective(m: nat, n: nat)
    requires Itoa(m) == Itoa(n)
    ensures m == n
  {
    ItoaDenotes(m);
    ItoaDenotes(n);
  }

  /** unicode.IsSpace. */
  predicate IsSpace(c: char) {
    || 9 as char <= c <= 13 as char || c == ' ' || c == 0x85 as char || c == 0xA0 as char || c == 0x1680 as char
    || 0x2000 as char <= c <= 0x200A as char || c == 0x2028 as char || c == 0x2029 as char
    || c == 0x202F as char || c == 0x205F as char || c == 0x3000 as char
  }

  /** unicode.IsControl. */
  predicate IsControl(c: char) { c < 32 as char || 127 as char <= c <= 159 as char }

  function TrimSpace(s: string): string {
    if s != "" && IsSpace(s[0]) then TrimSpace(s[1..])
    else if s != "" && IsSpace(s[|s| - 1]) then TrimSpace(s[..|s| - 1])
    else s
  }

  /** Lexicographic order; on Unicode scalars it agrees with the byte order of UTF-8. */
  predicate StringLe(a: string, b: string) {
    if a == "" then true
    else if b == "" then false
    else if a[0] != b[0] then a[0] < b[0]
    else StringLe(a[1..], b[1..])
  }

  predicate StringLt(a: string, b: string) { a != b && StringLe(a, b) }

  lemma {:induction false} StringLeReflexive(a: string)
    ensures StringLe(a, a)
  {
    if a != "" { StringLeReflexive(a[1..]); }
  }

  lemma {:induction false} StringLeTotal(a: string, b: string)
    ensures StringLe(a, b) || StringLe(b, a)
  {
    if a != "" && b != "" && a[0] == b[0] { StringLeTotal(a[1..], b[1..]); }
  }

  lemma {:induction false} StringLeTransitive(a: string, b: string, c: string)
    ensures StringLe(a, b) && StringLe(b, c) ==> StringLe(a, c)
  {
    if a != "" && b != "" && c != "" && a[0] == b[0] == c[0] {
      StringLeTransitive(a[1..], b[1..], c[1..]);
    }
  }

  lemma {:induction false} StringLeAntisymmetric(a: string, b: string)
    ensures StringLe(a, b) && StringLe(b, a) ==> a == b
  {
    if a != "" && b != "" && a[0] == b[0] {
      StringLeAntisymmetric(a[1..], b[1..]);
      assert a == [a[0]] + a[1..] && b == [b[0]] + b[1..];
    }
  }
}

/** Sorting by a total preorder, and when the sorted arrangement is unique. */
module Sorting {

  ghost predicate TotalPreorder<T(!new)>(le: (T, T) -> bool) {
    && (forall a, b :: le(a, b) || le(b, a))
    && (forall a, b, c :: le(a, b) && le(b, c) ==> le(a, c))
  }

  predicate SortedBy<T>(le: (T, T) -> bool, xs: seq<T>) {
    forall i, j :: 0 <= i < j < |xs| ==> le(xs[i], xs[j])
  }

  /** No two members of xs are tied, so le arranges them in one way only. */
  ghost predicate Untied<T>(le: (T, T) -> bool, xs: seq<T>) {
    forall a, b :: a in xs && b in xs && le(a, b) && le(b, a) ==> a == b
  }

  function Insert<T>(le: (T, T) -> bool, x: T, xs: seq<T>): seq<T> {
    if xs == [] then [x]
    else if le(x, xs[0]) then [x] + xs
    else [xs[0]] + Insert(le, x, xs[1..])
  }

  /** A stable insertion sort; any correct sort gives the same answer on untied input. */
  function Sort<T>(le: (T, T) -> bool, xs: seq<T>): seq<T> {
    if xs == [] then [] else Insert(le, xs[0], Sort(le, xs[1..]))
  }

  lemma {:induction false} InsertPermutes<T>(le: (T, T) -> bool, x: T, xs: seq<T>)
    ensures multiset(Insert(le, x, xs)) == multiset(xs) + multiset{x}
  {
    if xs != [] {
      assert xs == [xs[0]] + xs[1..];
      if !le(x, xs[0]) { InsertPermutes(le, x, xs[1..]); }
    }
  }

  lemma SortedCons<T>(le: (T, T) -> bool, x: T, xs: seq<T>)
    requires SortedBy(le, xs)
    requires forall y :: y in xs ==> le(x, y)
    ensures SortedBy(le, [x] + xs)
  {
    var ys := [x] + xs;
    forall i, j | 0 <= i < j < |ys| ensures le(ys[i], ys[j]) {
      if i == 0 { assert ys[j] in xs; } else { assert ys[i] == xs[i - 1] && ys[j] == xs[j - 1]; }
    }
  }

  lemma {:induction false} InsertCorrect<T(!new)>(le: (T, T) -> bool, x: T, xs: seq<T>)
    requires TotalPreorder(le) && SortedBy(le, xs)
    ensures SortedBy(le, Insert(le, x, xs))
  {
    if xs != [] {
      if le(x, xs[0]) {
        forall y | y in xs ensures le(x, y) {
          var i :| 0 <= i < |xs| && xs[i] == y;
          if i > 0 { assert le(xs[0], xs[i]); }
        }
        SortedCons(le, x, xs);
      } else {
        var rest := Insert(le, x, xs[1..]);
        InsertCorrect(le, x, xs[1..]);
        InsertPermutes(le, x, xs[1..]);
        forall y | y in rest ensures le(xs[0], y) {
          assert y in multiset(rest);
          if y != x {
            assert y in multiset(xs[1..]);
            var i :| 0 <= i < |xs[1..]| && xs[1..][i] == y;
            assert le(xs[0], xs[i + 1]);
          }
        }
        SortedCons(le, xs[0], rest);
      }
    }
  }

  lemma {:induction false} SortCorrect<T(!new)>(le: (T, T) -> bool, xs: seq<T>)
    requires TotalPreorder(le)
    ensures SortedBy(le, Sort(le, xs))
    ensures multiset(Sort(le, xs)) == multiset(xs)
    ensures |Sort(le, xs)| == |xs|
    ensures forall x :: x in Sort(le, xs) <==> x in xs
  {
    if xs != [] {
      assert xs == [xs[0]] + xs[1..];
      SortCorrect(le, xs[1..]);
      InsertCorrect(le, xs[0], Sort(le, xs[1..]));
      InsertPermutes(le, xs[0], Sort(le, xs[1..]));
    }
    assert |multiset(Sort(le, xs))| == |multiset(xs)|;
    forall x ensures x in Sort(le, xs) <==> x in xs {
      assert x in multiset(Sort(le, xs)) <==> x in multiset(xs);
    }
  }

  /** No two positions of xs clash. */
  ghost predicate Apart<T>(clash: (T, T) -> bool, xs: seq<T>) {
    forall i, j :: 0 <= i < j < |xs| ==> !clash(xs[i], xs[j])
  }

  lemma ApartPermutes<T(!new)>(clash: (T, T) -> bool, xs: seq<T>, ys: seq<T>)
    requires Apart(clash, xs) && multiset(xs) == multiset(ys)
    requires forall a, b :: clash(a, b) ==> clash(b, a) && clash(a, a)
    ensures Apart(clash, ys)
  {
    forall i, j | 0 <= i < j < |ys| ensures !clash(ys[i], ys[j]) {
      var a, b := ys[i], ys[j];
      if clash(a, b) {
        assert a in multiset(ys) && b in multiset(ys);
        assert a in multiset(xs) && b in multiset(xs);
        var m :| 0 <= m < |xs| && xs[m] == a;
        var n :| 0 <= n < |xs| && xs[n] == b;
        assert clash(b, a) && clash(a, a);
        MultiplicityOne(clash, xs, m);
        MultiplicityTwo(ys, i, j);
      }
    }
  }

  lemma MultiplicityTwo<T>(xs: seq<T>, i: nat, j: nat)
    requires i < j < |xs| && xs[i] == xs[j]
    ensures multiset(xs)[xs[i]] >= 2
  {
    assert xs == xs[..i] + [xs[i]] + xs[i + 1..j] + [xs[j]] + xs[j + 1..];
  }

  lemma MultiplicityOne<T>(clash: (T, T) -> bool, xs: seq<T>, m: nat)
    requires Apart(clash, xs) && m < |xs| && clash(xs[m], xs[m])
    ensures multiset(xs)[xs[m]] == 1
  {
    assert xs == xs[..m] + [xs[m]] + xs[m + 1..];
    assert xs[m] !in xs[..m] && xs[m] !in xs[m + 1..];
  }

  /** On untied input only one arrangement is sorted: the last members agree, and so do the rests before them. */
  lemma {:induction false} OneArrangement<T>(le: (T, T) -> bool, xs: seq<T>, ys: seq<T>)
    requires SortedBy(le, xs) && SortedBy(le, ys) && Untied(le, xs)
    requires multiset(xs) == multiset(ys)
    ensures xs == ys
  {
    assert |multiset(xs)| == |xs| && |multiset(ys)| == |ys|;
    if xs != [] {
      var n := |xs| - 1;
      assert xs == xs[..n] + [xs[n]] && ys == ys[..n] + [ys[n]];
      SameLast(le, xs, ys);
      Uncount(xs[..n], ys[..n], xs[n]);
      OneArrangement(le, xs[..n], ys[..n]);
    }
  }

  lemma Uncount<T>(xs: seq<T>, ys: seq<T>, last: T)
    requires multiset(xs + [last]) == multiset(ys + [last])
    ensures multiset(xs) == multiset(ys)
  {
    forall x ensures multiset(xs)[x] == multiset(ys)[x] {
      assert multiset(xs + [last])[x] == multiset(xs)[x] + multiset{last}[x];
      assert multiset(ys + [last])[x] == multiset(ys)[x] + multiset{last}[x];
    }
  }

  lemma SameLast<T>(le: (T, T) -> bool, xs: seq<T>, ys: seq<T>)
    requires SortedBy(le, xs) && SortedBy(le, ys) && Untied(le, xs)
    requires multiset(xs) == multiset(ys) && |xs| == |ys| > 0
    ensures xs[|xs| - 1] == ys[|ys| - 1]
  {
    var x, y := xs[|xs| - 1], ys[|ys| - 1];
    assert x in multiset(ys) && y in multiset(xs);
    assert x in ys && y in xs;
  }
}
