/** Canonical phone numbers: common Bangladeshi formats to the E.164 form +8801XXXXXXXXX. */
module Phone {
  import opened Options

  predicate IsDigit(c: char) {
    '0' <= c <= '9'
  }

  predicate IsKept(c: char) {
    IsDigit(c) || c == '+'
  }

  /** Drops everything but digits and plus signs. */
  function Filter(s: string): (r: string)
    ensures forall c | c in r :: IsKept(c)
  {
    if s == "" then "" else if IsKept(s[0]) then [s[0]] + Filter(s[1..]) else Filter(s[1..])
  }

  function TrimPlus(s: string): string {
    if s != "" && s[0] == '+' then s[1..] else s
  }

  function NormalizeBD(s: string): Option<string> {
    var s := TrimPlus(Filter(s));
    if "880" <= s && |s| == 13 then Checked(s)
    else if "01" <= s && |s| == 11 then Checked("880" + s[1..])
    else None
  }

  function Checked(s: string): Option<string>
    requires |s| == 13
  {
    if s[3] != '1' then None else Some("+" + s)
  }

  lemma {:induction false} FilterKeepsClean(s: string)
    requires forall c | c in s :: IsKept(c)
    ensures Filter(s) == s
  {
    if s != "" {
      assert s[0] in s;
      FilterKeepsClean(s[1..]);
    }
  }

  lemma {:induction false} FilterConcat(a: string, b: string)
    ensures Filter(a + b) == Filter(a) + Filter(b)
  {
    if a == "" {
      assert a + b == b;
    } else {
      FilterConcat(a[1..], b);
      assert (a + b)[1..] == a[1..] + b;
    }
  }

  /** What is accepted has fourteen characters, starts with +8801, and carries only characters the filter kept. */
  lemma NormalizedShape(s: string)
    requires NormalizeBD(s).Some?
    ensures var r := NormalizeBD(s).value;
            |r| == 14 && r[..5] == "+8801" && forall c | c in r :: IsKept(c)
  {
    var r, t := NormalizeBD(s).value, TrimPlus(Filter(s));
    assert forall c | c in t :: c in Filter(s);
    assert forall i | 0 <= i < |t| :: t[i] in t;
    assert r[1] == '8' && r[2] == '8' && r[3] == '0' && r[4] == '1';
  }

  /** Normalising again changes nothing. */
  lemma NormalizeIdempotent(s: string)
    requires NormalizeBD(s).Some?
    ensures NormalizeBD(NormalizeBD(s).value) == NormalizeBD(s)
  {
    var r := NormalizeBD(s).value;
    NormalizedShape(s);
    FilterKeepsClean(r);
    assert r[1] == r[..5][1] && r[2] == r[..5][2] && r[3] == r[..5][3] && r[4] == r[..5][4];
    assert "880" == r[1..][..3] && "880" <= r[1..];
    assert "+" + r[1..] == r;
  }

  lemma LocalFormat(number: string)
    requires |number| == 10 && number[0] == '1' && forall c | c in number :: IsKept(c)
    ensures NormalizeBD("0" + number) == Some("+880" + number)
  {
    var s := "0" + number;
    FilterKeepsClean(s);
    assert s[..2] == "01" && "01" <= s;
    assert s[1..] == number;
    assert "+" + ("880" + number) == "+880" + number;
  }

  lemma CountryFormat(number: string)
    requires |number| == 10 && number[0] == '1' && forall c | c in number :: IsKept(c)
    ensures NormalizeBD("880" + number) == Some("+880" + number)
  {
    var s := "880" + number;
    FilterKeepsClean(s);
    assert s[..3] == "880" && "880" <= s && s[3] == '1';
    assert "+" + s == "+880" + number;
  }

  lemma InternationalFormat(number: string)
    requires |number| == 10 && number[0] == '1' && forall c | c in number :: IsKept(c)
    ensures NormalizeBD("+880" + number) == Some("+880" + number)
  {
    var s, t := "+880" + number, "880" + number;
    FilterKeepsClean(s);
    assert s[1..] == t && t[..3] == "880" && "880" <= t && t[3] == '1';
    assert "+" + t == s;
  }

  /** The three documented formats of a subscriber number agree. */
  lemma FormatsAgree(number: string)
    requires |number| == 10 && number[0] == '1' && forall c | c in number :: IsDigit(c)
    ensures NormalizeBD("0" + number) == NormalizeBD("880" + number) == NormalizeBD("+880" + number)
    ensures NormalizeBD("0" + number) == Some("+880" + number)
  {
    LocalFormat(number);
    CountryFormat(number);
    InternationalFormat(number);
  }

  /** A ten-character subscriber number as the filter leaves it, starting with 1. */
  predicate IsNumber(number: string) {
    |number| == 10 && number[0] == '1' && forall c | c in number :: IsKept(c)
  }

  /** The four ways a number may be written once everything else is filtered out. */
  predicate Writes(kept: string, number: string) {
    kept == "0" + number || kept == "+0" + number || kept == "880" + number || kept == "+880" + number
  }

  lemma WritesAreAccepted(s: string, number: string)
    requires IsNumber(number) && Writes(Filter(s), number)
    ensures NormalizeBD(s) == Some("+880" + number)
  {
    var kept := Filter(s);
    FilterKeepsClean(kept);
    if kept == "0" + number {
      LocalFormat(number);
    } else if kept == "880" + number {
      CountryFormat(number);
    } else if kept == "+880" + number {
      InternationalFormat(number);
    } else {
      assert kept[1..] == "0" + number;
      FilterKeepsClean("0" + number);
      LocalFormat(number);
    }
  }

  lemma SpelledOut(t: string, number: string)
    requires ("880" <= t && |t| == 13) || ("01" <= t && |t| == 11)
    requires number == t[|t| - 10..]
    ensures |t| == 13 ==> t == "880" + number
    ensures |t| == 11 ==> t == "0" + number && t[1..] == number && number[0] == '1'
    ensures "+" + ("0" + number) == "+0" + number && "+" + ("880" + number) == "+880" + number
  {
    if |t| == 13 {
      assert t[..3] == "880";
    } else {
      assert t[..2] == "01" && t[..1] == "0";
    }
  }

  lemma AcceptedIsWritten(s: string) returns (number: string)
    requires NormalizeBD(s).Some?
    ensures IsNumber(number) && Writes(Filter(s), number) && NormalizeBD(s) == Some("+880" + number)
  {
    var kept := Filter(s);
    var t := TrimPlus(kept);
    assert forall i | 0 <= i < |t| :: t[i] in t && t[i] in kept;
    number := t[|t| - 10..];
    SpelledOut(t, number);
    assert kept == t || kept == "+" + t;
  }

  /** Exactly the inputs that spell a number in one of four ways are accepted, with that number. */
  lemma AcceptsExactly(s: string, result: string)
    ensures NormalizeBD(s) == Some(result)
       <==> exists number :: IsNumber(number) && Writes(Filter(s), number) && result == "+880" + number
  {
    if NormalizeBD(s) == Some(result) {
      var number := AcceptedIsWritten(s);
    }
    if number :| IsNumber(number) && Writes(Filter(s), number) && result == "+880" + number {
      WritesAreAccepted(s, number);
    }
  }

  predicate AllDigits(s: string) {
    forall i | 0 <= i < |s| :: IsDigit(s[i])
  }

  /** A plus sign inside the number survives, so acceptance does not mean E.164. */
  lemma InteriorPlusSurvives()
    ensures NormalizeBD("0" + "171234+678") == Some("+880" + "171234+678") && !AllDigits(("+880" + "171234+678")[1..])
  {
    var number := "171234+678";
    LocalFormat(number);
    assert ("+880" + number)[1..][9] == number[6] == '+';
  }

  /** What is accepted is all digits after its plus exactly when the input has no plus past its first kept character. */
  lemma DigitsExactlyWhen(s: string)
    requires NormalizeBD(s).Some?
    ensures AllDigits(NormalizeBD(s).value[1..]) <==> '+' !in Filter(s)[1..]
  {
    var kept, r := Filter(s), NormalizeBD(s).value;
    var t := TrimPlus(kept);
    assert forall i | 0 <= i < |kept| :: kept[i] in kept;
    if kept[0] == '+' {
      assert t == kept[1..];
    } else {
      assert t == [kept[0]] + kept[1..];
    }
    DigitsOf(t, r);
    assert '+' in t <==> '+' in kept[1..];
  }

  lemma DigitsOf(t: string, r: string)
    requires forall c | c in t :: IsKept(c)
    requires ("880" <= t && |t| == 13 && r == "+" + t) || ("01" <= t && |t| == 11 && r == "+" + ("880" + t[1..]))
    ensures AllDigits(r[1..]) <==> '+' !in t
  {
    assert forall i | 0 <= i < |t| :: t[i] in t;
    if |t| == 13 {
      assert r[1..] == t;
    } else {
      assert r[1..] == "880" + t[1..];
      assert forall i | 1 <= i < |t| :: r[1..][i + 2] == t[i];
      assert t[0] == '0';
      forall i | 0 <= i < 13 ensures i < 3 || r[1..][i] == t[i - 2] {
      }
    }
  }

  // ---------------------------------------------------------------- surrounding white space

  predicate IsSpace(c: char) {
    || c in " \t\n\r\U{0b}\U{0c}\U{85}\U{a0}\U{1680}\U{2028}\U{2029}\U{202f}\U{205f}\U{3000}"
    || '\U{2000}' <= c <= '\U{200a}'
  }

  function TrimLeft(s: string): string {
    if s != "" && IsSpace(s[0]) then TrimLeft(s[1..]) else s
  }

  function TrimRight(s: string): string {
    if s != "" && IsSpace(s[|s| - 1]) then TrimRight(s[..|s| - 1]) else s
  }

  function TrimSpace(s: string): string {
    TrimRight(TrimLeft(s))
  }

  lemma {:induction false} TrimLeftFiltered(s: string)
    ensures Filter(TrimLeft(s)) == Filter(s)
  {
    if s != "" && IsSpace(s[0]) {
      TrimLeftFiltered(s[1..]);
    }
  }

  lemma {:induction false} TrimRightFiltered(s: string)
    ensures Filter(TrimRight(s)) == Filter(s)
  {
    if s != "" && IsSpace(s[|s| - 1]) {
      var n := |s| - 1;
      TrimRightFiltered(s[..n]);
      FilterConcat(s[..n], [s[n]]);
      assert s == s[..n] + [s[n]] && Filter([s[n]]) == "";
    }
  }

  lemma {:induction false} TrimLeftIs(s: string) returns (n: nat)
    ensures n <= |s| && TrimLeft(s) == s[n..] && (forall i | 0 <= i < n :: IsSpace(s[i]))
    ensures n < |s| ==> !IsSpace(s[n])
  {
    n := 0;
    if s != "" && IsSpace(s[0]) {
      n := TrimLeftIs(s[1..]);
      assert s[1..][n..] == s[n + 1..];
      assert forall i | 0 < i < n + 1 :: s[i] == s[1..][i - 1];
      n := n + 1;
    }
  }

  lemma {:induction false} TrimRightIs(s: string) returns (n: nat)
    ensures n <= |s| && TrimRight(s) == s[..n] && (forall i | n <= i < |s| :: IsSpace(s[i]))
    ensures n > 0 ==> !IsSpace(s[n - 1])
  {
    n := |s|;
    if s != "" && IsSpace(s[|s| - 1]) {
      n := TrimRightIs(s[..|s| - 1]);
    }
  }

  /** Trimming takes off exactly the white space at both ends. */
  lemma TrimsExactly(s: string) returns (from: nat, to: nat)
    ensures from <= to <= |s| && TrimSpace(s) == s[from..to]
    ensures forall i | 0 <= i < from || to <= i < |s| :: IsSpace(s[i])
    ensures from < to ==> !IsSpace(s[from]) && !IsSpace(s[to - 1])
  {
    from := TrimLeftIs(s);
    var n := TrimRightIs(s[from..]);
    to := from + n;
    assert s[from..][..n] == s[from..to];
    forall i | to <= i < |s| ensures IsSpace(s[i]) {
      assert s[i] == s[from..][i - from];
    }
    assert from < to ==> s[to - 1] == s[from..][n - 1];
  }

  /** Trimming first makes no difference. */
  lemma TrimmedNormalizesAlike(s: string)
    ensures NormalizeBD(TrimSpace(s)) == NormalizeBD(s)
  {
    TrimLeftFiltered(s);
    TrimRightFiltered(TrimLeft(s));
  }
}
