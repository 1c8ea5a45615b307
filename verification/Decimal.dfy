/** Decimal numerals: Python's `int()` on ASCII text, with its limit on length, and its inverse. */
module Decimal {
  import opened Text

  predicate IsDigit(c: char) { '0' <= c <= '9' }

  function DigitValue(c: char): nat
    requires IsDigit(c)
  {
    c as int - '0' as int
  }

  function DigitChar(d: nat): (c: char)
    requires d < 10
    ensures IsDigit(c) && DigitValue(c) == d
  {
    (d + '0' as int) as char
  }

  /** A non-empty run of digits. */
  predicate AllDigits(s: string)
  {
    s != "" && forall i | 0 <= i < |s| :: IsDigit(s[i])
  }

  function DigitsValue(s: string): nat
    requires forall i | 0 <= i < |s| :: IsDigit(s[i])
  {
    if s == "" then 0 else 10 * DigitsValue(s[..|s| - 1]) + DigitValue(s[|s| - 1])
  }

  function PrintNat(n: nat): (s: string)
    ensures AllDigits(s)
  {
    if n < 10 then [DigitChar(n)] else PrintNat(n / 10) + [DigitChar(n % 10)]
  }

  /** Digits, with single underscores allowed between two digits. */
  predicate Numeral(s: string)
  {
    && s != "" && IsDigit(s[0]) && IsDigit(s[|s| - 1])
    && (forall i | 0 <= i < |s| :: IsDigit(s[i]) || s[i] == '_')
    && (forall i | 0 < i < |s| :: s[i] == '_' ==> IsDigit(s[i - 1]))
  }

  function DropUnderscores(s: string): (r: string)
    ensures (forall i | 0 <= i < |s| :: IsDigit(s[i]) || s[i] == '_') ==> forall i | 0 <= i < |r| :: IsDigit(r[i])
  {
    if s == "" then "" else (if s[0] == '_' then "" else [s[0]]) + DropUnderscores(s[1..])
  }

  /** Python 3.11 refuses to convert a numeral of more digits than this. */
  const MAX_STR_DIGITS: nat := 4300

  function ParseNumeral(s: string): Option<nat>
  {
    if Numeral(s) && |DropUnderscores(s)| <= MAX_STR_DIGITS then Some(DigitsValue(DropUnderscores(s))) else None
  }

  /** The number prints with few enough digits to be read back. */
  predicate Readable(n: nat)
  {
    |PrintNat(n)| <= MAX_STR_DIGITS
  }

  /** An optional sign, then a numeral. */
  function ParseSigned(s: string): Option<int>
  {
    if s == "" then None
    else if s[0] == '-' then
      match ParseNumeral(s[1..])
      case Some(n) => Some(-(n as int))
      case None => None
    else
      match ParseNumeral(if s[0] == '+' then s[1..] else s)
      case Some(n) => Some(n)
      case None => None
  }

  /** `int(s)`, which ignores white space around the number. */
  function ParseInt(s: string): Option<int>
  {
    ParseSigned(Strip(s))
  }

  lemma {:induction false} DropUnderscoresFixpoint(s: string)
    requires forall i | 0 <= i < |s| :: IsDigit(s[i])
    ensures DropUnderscores(s) == s
  {
    if s != "" { DropUnderscoresFixpoint(s[1..]); }
  }

  lemma {:induction false} DigitsValuePrint(n: nat)
    ensures DigitsValue(PrintNat(n)) == n
  {
    if n < 10 {
      assert PrintNat(n)[..0] == "";
    } else {
      DigitsValuePrint(n / 10);
      assert PrintNat(n)[..|PrintNat(n)| - 1] == PrintNat(n / 10);
    }
  }

  /** A larger number has no fewer digits. */
  lemma {:induction false} PrintGrows(a: nat, b: nat)
    requires a <= b
    ensures |PrintNat(a)| <= |PrintNat(b)|
  {
    if a >= 10 { PrintGrows(a / 10, b / 10); }
  }

  lemma NumeralOfDigits(s: string)
    requires AllDigits(s)
    ensures Numeral(s)
  {
  }

  lemma ParseSignedDigits(s: string)
    requires AllDigits(s)
    ensures ParseSigned(s) == if |s| <= MAX_STR_DIGITS then Some(DigitsValue(s)) else None
  {
    assert IsDigit(s[0]);
    DropUnderscoresFixpoint(s);
    NumeralOfDigits(s);
  }

  lemma ParseDigits(s: string)
    requires AllDigits(s)
    ensures ParseInt(s) == if |s| <= MAX_STR_DIGITS then Some(DigitsValue(s)) else None
  {
    StripFixpoint(s);
    ParseSignedDigits(s);
  }

  /** A printed number is read back, unless it is too long to be read at all. */
  lemma ParsePrint(n: nat)
    ensures ParseInt(PrintNat(n)) == if Readable(n) then Some(n) else None
  {
    ParseDigits(PrintNat(n));
    DigitsValuePrint(n);
  }

  // ------------------------------------------------------------------ what `int()` reads, without an algorithm

  function Pow10(n: nat): nat
  {
    if n == 0 then 1 else 10 * Pow10(n - 1)
  }

  lemma AllDigitsConcat(a: string, b: string)
    requires forall i | 0 <= i < |a| :: IsDigit(a[i])
    requires forall i | 0 <= i < |b| :: IsDigit(b[i])
    ensures forall i | 0 <= i < |a + b| :: IsDigit((a + b)[i])
  {
  }

  lemma ShiftDigit(x: nat, p: nat, y: nat, d: nat)
    ensures 10 * (x * p + y) + d == x * (10 * p) + (10 * y + d)
  {
    assert x * (10 * p) == 10 * (x * p);
  }

  lemma DigitsValueLast(a: string, c: char)
    requires (forall i | 0 <= i < |a| :: IsDigit(a[i])) && IsDigit(c)
    ensures DigitsValue(a + [c]) == 10 * DigitsValue(a) + DigitValue(c)
  {
    assert (a + [c])[..|a + [c]| - 1] == a;
  }

  /** The value is positional. */
  lemma {:induction false} DigitsValueConcat(a: string, b: string)
    requires forall i | 0 <= i < |a| :: IsDigit(a[i])
    requires forall i | 0 <= i < |b| :: IsDigit(b[i])
    ensures forall i | 0 <= i < |a + b| :: IsDigit((a + b)[i])
    ensures DigitsValue(a + b) == DigitsValue(a) * Pow10(|b|) + DigitsValue(b)
  {
    AllDigitsConcat(a, b);
    if b == "" {
      assert a + b == a;
    } else {
      var shorter, c := b[..|b| - 1], b[|b| - 1];
      DigitsValueConcat(a, shorter);
      DigitsValueLast(a + shorter, c);
      DigitsValueLast(shorter, c);
      assert b == shorter + [c] && a + b == a + shorter + [c];
      ShiftDigit(DigitsValue(a), Pow10(|shorter|), DigitsValue(shorter), DigitValue(c));
    }
  }

  lemma SingleDigitValue(c: char)
    requires '0' <= c <= '9'
    ensures DigitsValue([c]) == c as int - 48
  {
    assert [c][..0] == "";
  }

  /** Runs of digits. */
  ghost predicate AreGroups(groups: seq<string>)
  {
    groups != [] && forall i | 0 <= i < |groups| :: AllDigits(groups[i])
  }

  /** The groups with one underscore between each two. */
  function Join(groups: seq<string>): string
    requires groups != []
  {
    if |groups| == 1 then groups[0] else groups[0] + "_" + Join(groups[1..])
  }

  function Negated(sign: string, n: nat): int
  {
    if sign == "-" then -(n as int) else n
  }

  /** `s` is white space, a sign or none, groups of digits, white space, and `v` is the number they spell. */
  ghost predicate ReadsBy(s: string, v: int, before: string, sign: string, groups: seq<string>, after: string)
  {
    && AllSpace(before) && AllSpace(after) && sign in {"", "+", "-"} && AreGroups(groups)
    && s == before + (sign + Join(groups)) + after
    && (forall i | 0 <= i < |Concat(groups)| :: IsDigit(Concat(groups)[i]))
    && |Concat(groups)| <= MAX_STR_DIGITS && v == Negated(sign, DigitsValue(Concat(groups)))
  }

  ghost predicate ReadsAs(s: string, v: int)
  {
    exists before, sign, groups, after :: ReadsBy(s, v, before, sign, groups, after)
  }

  lemma {:induction false} DropUnderscoresConcat(a: string, b: string)
    ensures DropUnderscores(a + b) == DropUnderscores(a) + DropUnderscores(b)
  {
    if a == "" {
      assert a + b == b;
    } else {
      assert (a + b)[1..] == a[1..] + b;
      DropUnderscoresConcat(a[1..], b);
      PlusAssociative(if a[0] == '_' then "" else [a[0]], DropUnderscores(a[1..]), DropUnderscores(b));
    }
  }

  lemma NumeralJoin(a: string, b: string)
    requires AllDigits(a) && Numeral(b)
    ensures Numeral(a + "_" + b)
  {
    var s := a + "_" + b;
    assert forall i | 0 <= i < |a| :: s[i] == a[i];
    assert s[|a|] == '_';
    assert forall i | 0 <= i < |b| :: s[|a| + 1 + i] == b[i];
    forall i | 0 <= i < |s| ensures IsDigit(s[i]) || s[i] == '_' {
      if i > |a| { assert s[i] == b[i - |a| - 1]; }
    }
    forall i | 0 < i < |s| && s[i] == '_' ensures IsDigit(s[i - 1]) {
      if i > |a| { assert s[i] == b[i - |a| - 1]; }
    }
    assert s[0] == a[0] && s[|s| - 1] == b[|b| - 1];
  }

  lemma DropUnderscoresJoin(a: string, b: string)
    requires AllDigits(a)
    ensures DropUnderscores(a + "_" + b) == a + DropUnderscores(b)
  {
    DropUnderscoresConcat(a + "_", b);
    DropUnderscoresConcat(a, "_");
    DropUnderscoresFixpoint(a);
    assert "_"[1..] == "" && DropUnderscores("_") == "";
    assert a + "" == a;
  }

  lemma {:induction false} JoinIsNumeral(groups: seq<string>)
    requires AreGroups(groups)
    ensures Numeral(Join(groups)) && DropUnderscores(Join(groups)) == Concat(groups)
  {
    if |groups| == 1 {
      assert groups == [groups[0]] && Concat(groups[1..]) == "";
      NumeralOfDigits(groups[0]);
      DropUnderscoresFixpoint(groups[0]);
    } else {
      JoinIsNumeral(groups[1..]);
      NumeralJoin(groups[0], Join(groups[1..]));
      DropUnderscoresJoin(groups[0], Join(groups[1..]));
    }
  }

  /** The first underscore of a numeral, or its end. */
  function FirstGroup(s: string): (n: nat)
    ensures n <= |s| && (forall i | 0 <= i < n :: s[i] != '_') && (n < |s| ==> s[n] == '_')
  {
    if s == "" || s[0] == '_' then 0 else 1 + FirstGroup(s[1..])
  }

  lemma {:induction false} NumeralIsJoin(s: string) returns (groups: seq<string>)
    requires Numeral(s)
    ensures AreGroups(groups) && Join(groups) == s
    decreases |s|
  {
    var n := FirstGroup(s);
    if n == |s| {
      groups := [s];
    } else {
      assert s[n + 1] != '_';
      var rest := NumeralIsJoin(s[n + 1..]);
      groups := [s[..n]] + rest;
      assert groups[1..] == rest && s == s[..n] + "_" + s[n + 1..];
    }
  }

  lemma ParseSignedBody(sign: string, body: string)
    requires sign in {"", "+", "-"} && Numeral(body)
    ensures Stripped(sign + body)
    ensures ParseSigned(sign + body) ==
            match ParseNumeral(body)
            case Some(n) => Some(Negated(sign, n))
            case None => None
  {
    var s := sign + body;
    if sign == "" {
      assert s == body;
    } else {
      assert s[0] == sign[0] && s[1..] == body && s[|s| - 1] == body[|body| - 1];
    }
  }

  lemma ParseSignedParts(sign: string, groups: seq<string>)
    requires sign in {"", "+", "-"} && AreGroups(groups)
    ensures forall i | 0 <= i < |Concat(groups)| :: IsDigit(Concat(groups)[i])
    ensures ParseSigned(sign + Join(groups))
         == if |Concat(groups)| <= MAX_STR_DIGITS then Some(Negated(sign, DigitsValue(Concat(groups)))) else None
    ensures Stripped(sign + Join(groups))
  {
    JoinIsNumeral(groups);
    ParseSignedBody(sign, Join(groups));
  }

  lemma SignedParts(core: string) returns (sign: string, groups: seq<string>)
    requires ParseSigned(core).Some?
    ensures sign in {"", "+", "-"} && AreGroups(groups) && core == sign + Join(groups)
  {
    sign := if core[0] == '-' then "-" else if core[0] == '+' then "+" else "";
    groups := NumeralIsJoin(core[|sign|..]);
    assert core == sign + core[|sign|..];
  }

  /** `int(s)` reads exactly the texts of that form, and as the number they spell. */
  lemma ParseIntReads(s: string, v: int)
    ensures ParseInt(s) == Some(v) <==> ReadsAs(s, v)
  {
    if ParseInt(s) == Some(v) {
      var before, after := StripDecomposes(s);
      var sign, groups := SignedParts(Strip(s));
      ParseSignedParts(sign, groups);
      assert ReadsBy(s, v, before, sign, groups, after);
    }
    if ReadsAs(s, v) {
      var before, sign, groups, after :| ReadsBy(s, v, before, sign, groups, after);
      ParseSignedParts(sign, groups);
      StripBetween(before, sign + Join(groups), after);
    }
  }

  /** The characters of a number. */
  predicate Numeric(c: char)
  {
    IsDigit(c) || c in {'+', '-', '_'} || IsSpace(c)
  }

  /** A text with any other character in it is refused. */
  lemma OddCharacterUnread(s: string, c: char)
    requires c in s && !Numeric(c)
    ensures ParseInt(s) == None
  {
    if ParseInt(s).Some? {
      var before, after := StripDecomposes(s);
      assert c in Strip(s);
      var sign, groups := SignedParts(Strip(s));
      JoinIsNumeral(groups);
    }
  }
}
