/**
 * The two pieces of JavaScript's string handling that the middleware relies
 * on: `parseInt(text, 10)` and `text.split(sep).join(other)`.
 */
module JsText {
  import opened Wrappers

  // ---------------------------------------------------------------------------
  // parseInt(text, 10)

  /** White space and line terminators, which `parseInt` skips at the front. */
  predicate IsSpace(c: char) {
    || c == ' ' || c == '\t' || c == '\n' || c == '\r'
    || c as int == 0x0B || c as int == 0x0C || c as int == 0xA0 || c as int == 0xFEFF
    || c as int == 0x1680 || 0x2000 <= c as int <= 0x200A || c as int == 0x2028
    || c as int == 0x2029 || c as int == 0x202F || c as int == 0x205F || c as int == 0x3000
  }

  predicate IsDigit(c: char) {
    '0' <= c <= '9'
  }

  function DigitValue(c: char): (d: nat)
    requires IsDigit(c)
    ensures d < 10
  {
    c as int - '0' as int
  }

  function DigitChar(d: nat): (c: char)
    requires d < 10
    ensures IsDigit(c) && DigitValue(c) == d
  {
    ('0' as int + d) as char
  }

  /** `s` without its leading white space. */
  function TrimStart(s: string): (t: string)
    ensures t == [] || !IsSpace(t[0])
    ensures |t| <= |s| && t == s[|s| - |t|..]
    ensures forall q :: 0 <= q < |s| - |t| ==> IsSpace(s[q])
  {
    if s != [] && IsSpace(s[0]) then TrimStart(s[1..]) else s
  }

  /** The number of decimal digits at the front of `s`. */
  function DigitRun(s: string): (n: nat)
    ensures n <= |s|
    ensures forall q :: 0 <= q < n ==> IsDigit(s[q])
    ensures n == |s| || !IsDigit(s[n])
  {
    if s == [] || !IsDigit(s[0]) then 0 else 1 + DigitRun(s[1..])
  }

  /** The value of a string of decimal digits, most significant first. */
  function DigitsValue(ds: string): nat
    requires forall q :: 0 <= q < |ds| ==> IsDigit(ds[q])
  {
    if ds == [] then 0 else DigitsValue(ds[..|ds| - 1]) * 10 + DigitValue(ds[|ds| - 1])
  }

  /**
   * `parseInt(s, 10)`: skip leading white space, take an optional sign, then
   * the longest run of decimal digits; `None` stands for `NaN`, the result
   * when there is no digit at all. Whatever follows the digits is ignored.
   */
  function ParseInt(s: string): (r: Option<int>)
    ensures var t := TrimStart(s);
      r.Some? <==> (t != [] && IsDigit(t[0])) || (|t| >= 2 && (t[0] == '-' || t[0] == '+') && IsDigit(t[1]))
    ensures r.Some? && r.value < 0 ==> TrimStart(s)[0] == '-'
  {
    ParseSigned(TrimStart(s))
  }

  /** `parseInt` after the white space: optional sign, then the digits. */
  function ParseSigned(t: string): (r: Option<int>)
    ensures r.Some? <==> (t != [] && IsDigit(t[0])) || (|t| >= 2 && (t[0] == '-' || t[0] == '+') && IsDigit(t[1]))
    ensures r.Some? && t[0] == '-' ==> r.value <= 0
    ensures r.Some? && t[0] != '-' ==> r.value >= 0
  {
    var negative := t != [] && t[0] == '-';
    var body := if t != [] && (t[0] == '-' || t[0] == '+') then t[1..] else t;
    var n := DigitRun(body);
    if n == 0 then None
    else
      var v: int := DigitsValue(body[..n]);
      Some(if negative then -v else v)
  }

  /** Decimal rendering of a natural number, without leading zeros. */
  function ShowNat(n: nat): (s: string)
    ensures s != [] && forall q :: 0 <= q < |s| ==> IsDigit(s[q])
  {
    if n < 10 then [DigitChar(n)] else ShowNat(n / 10) + [DigitChar(n % 10)]
  }

  /** Decimal rendering of an integer, with a `-` when it is negative. */
  function ShowInt(n: int): string {
    if n < 0 then "-" + ShowNat(-n) else ShowNat(n)
  }

  lemma {:induction false} DigitsValueShow(n: nat)
    ensures DigitsValue(ShowNat(n)) == n
  {
    if n >= 10 {
      var s := ShowNat(n);
      assert s[..|s| - 1] == ShowNat(n / 10);
      DigitsValueShow(n / 10);
    }
  }

  /**
   * Round trip: `parseInt` reads back the decimal rendering of any integer,
   * after any leading white space and before any text that does not start
   * with a digit (`parseInt(" 10abc", 10) == 10`).
   */
  lemma ParseShow(ws: string, n: int, rest: string)
    requires forall q :: 0 <= q < |ws| ==> IsSpace(ws[q])
    requires rest == [] || !IsDigit(rest[0])
    ensures ParseInt(ws + (ShowInt(n) + rest)) == Some(n)
  {
    ParseShowNoSpace(n, rest);
    TrimSpaces(ws, ShowInt(n) + rest);
  }

  /** `parseInt` reads back the decimal rendering of any integer, before text that does not start with a digit. */
  lemma ParseShowExact(n: int, rest: string)
    requires rest == [] || !IsDigit(rest[0])
    ensures ParseInt(ShowInt(n) + rest) == Some(n)
  {
    ParseShowNoSpace(n, rest);
  }

  lemma ParseShowNoSpace(n: int, rest: string)
    requires rest == [] || !IsDigit(rest[0])
    ensures ShowInt(n) + rest != [] && !IsSpace((ShowInt(n) + rest)[0])
    ensures ParseSigned(ShowInt(n) + rest) == Some(n)
  {
    var m: nat := if n < 0 then -n else n;
    ShowNatDigits(m, rest);
    ParseDigits(n < 0, ShowNat(m), rest, n);
  }

  /** The digits of `ShowNat(m)` are the whole digit run in front of `rest`, and they are worth `m`. */
  lemma ShowNatDigits(m: nat, rest: string)
    requires rest == [] || !IsDigit(rest[0])
    ensures var body := ShowNat(m) + rest;
      body != [] && IsDigit(body[0]) && DigitsValue(body[..DigitRun(body)]) == m
  {
    var digits := ShowNat(m);
    var body := digits + rest;
    DigitRunExact(digits, rest);
    assert body[..|digits|] == digits;
    DigitsValueShow(m);
    assert body[0] == digits[0];
  }

  /** `ParseSigned` on a digit run, with or without a minus sign in front. */
  lemma ParseDigits(negative: bool, digits: string, rest: string, n: int)
    requires digits + rest != [] && IsDigit((digits + rest)[0])
    requires var body := digits + rest;
      n == if negative then -(DigitsValue(body[..DigitRun(body)]) as int) else DigitsValue(body[..DigitRun(body)])
    ensures var u := (if negative then "-" + digits else digits) + rest;
      u != [] && !IsSpace(u[0]) && ParseSigned(u) == Some(n)
  {
    if negative {
      var u := ("-" + digits) + rest;
      assert u[1..] == digits + rest;
    }
  }

  lemma {:induction false} TrimSpaces(ws: string, t: string)
    requires forall q :: 0 <= q < |ws| ==> IsSpace(ws[q])
    requires t != [] && !IsSpace(t[0])
    ensures TrimStart(ws + t) == t
  {
    if ws != [] {
      assert (ws + t)[1..] == ws[1..] + t;
      TrimSpaces(ws[1..], t);
    } else {
      assert ws + t == t;
    }
  }

  lemma {:induction false} DigitRunExact(ds: string, rest: string)
    requires forall q :: 0 <= q < |ds| ==> IsDigit(ds[q])
    requires rest == [] || !IsDigit(rest[0])
    ensures DigitRun(ds + rest) == |ds|
  {
    if ds != [] {
      assert (ds + rest)[1..] == ds[1..] + rest;
      DigitRunExact(ds[1..], rest);
    } else {
      assert ds + rest == rest;
    }
  }

  /** Text with no digit anywhere parses to `NaN`. */
  lemma ParseNoDigits(s: string)
    requires forall q :: 0 <= q < |s| ==> !IsDigit(s[q])
    ensures ParseInt(s) == None
  {
    var t := TrimStart(s);
    if t != [] {
      assert t[0] == s[|s| - |t|];
    }
    if |t| > 1 {
      assert t[1] == s[|s| - |t| + 1];
    }
  }

  // ---------------------------------------------------------------------------
  // text.split(sep).join(other)

  /** `s.split(sep)` for a one-character separator: the pieces between separators. */
  function Split(s: string, sep: char): (parts: seq<string>)
    ensures |parts| > 0
  {
    if s == [] then [[]]
    else
      var rest := Split(s[1..], sep);
      if s[0] == sep then [[]] + rest else [[s[0]] + rest[0]] + rest[1..]
  }

  /** `parts.join(sep)` for a one-character separator. */
  function Join(parts: seq<string>, sep: char): (r: string)
    ensures |parts| > 0 ==> |r| == TotalLength(parts) + |parts| - 1
  {
    if |parts| == 0 then []
    else if |parts| == 1 then parts[0]
    else parts[0] + [sep] + Join(parts[1..], sep)
  }

  /** The lengths of the pieces, added up. */
  function TotalLength(parts: seq<string>): nat {
    if parts == [] then 0 else |parts[0]| + TotalLength(parts[1..])
  }

  /** Joining `n` pieces that do not hold the separator writes it exactly `n - 1` times. */
  lemma {:induction false} JoinCountsSeparators(parts: seq<string>, sep: char)
    requires |parts| > 0
    requires forall i :: 0 <= i < |parts| ==> sep !in parts[i]
    ensures multiset(Join(parts, sep))[sep] == |parts| - 1
  {
    if |parts| > 1 {
      JoinCountsSeparators(parts[1..], sep);
      assert sep !in parts[0];
    }
  }

  /** `s` with every `a` replaced by `b`, position by position. */
  predicate IsReplaced(s: string, r: string, a: char, b: char) {
    |r| == |s| && forall i :: 0 <= i < |s| ==> r[i] == if s[i] == a then b else s[i]
  }

  /** No piece of a split contains the separator. */
  lemma {:induction false} SplitPiecesHaveNoSeparator(s: string, sep: char)
    ensures forall p :: p in Split(s, sep) ==> sep !in p
  {
    if s != [] {
      SplitPiecesHaveNoSeparator(s[1..], sep);
      var rest := Split(s[1..], sep);
      if s[0] != sep {
        assert rest[0] in rest;
        forall p | p in rest[1..] ensures p in rest { }
      }
    }
  }

  /** Joining the pieces of a split with another character replaces the separator by it. */
  lemma {:induction false} JoinSplit(s: string, a: char, b: char)
    ensures IsReplaced(s, Join(Split(s, a), b), a, b)
  {
    if s != [] {
      JoinSplit(s[1..], a, b);
      JoinSplitStep(s, a, b);
      ReplacedCons(s[0], s[1..], Join(Split(s[1..], a), b), a, b);
      assert [s[0]] + s[1..] == s;
    }
  }

  /** One character of the input becomes one character of the joined text. */
  lemma JoinSplitStep(s: string, a: char, b: char)
    requires s != []
    ensures Join(Split(s, a), b) == [if s[0] == a then b else s[0]] + Join(Split(s[1..], a), b)
  {
    var rest := Split(s[1..], a);
    var j := Join(rest, b);
    if s[0] == a {
      assert Join([[]] + rest, b) == [] + [b] + j;
      assert [] + [b] + j == [b] + j;
    } else {
      var parts := [[s[0]] + rest[0]] + rest[1..];
      if |rest| == 1 {
        assert Join(parts, b) == [s[0]] + j;
      } else {
        assert parts[1..] == rest[1..];
        var tail := [b] + Join(rest[1..], b);
        assert j == rest[0] + tail;
        assert Join(parts, b) == ([s[0]] + rest[0]) + tail;
        assert ([s[0]] + rest[0]) + tail == [s[0]] + (rest[0] + tail);
      }
    }
  }

  /** Replacing in front of a replaced text. */
  lemma ReplacedCons(c: char, s: string, r: string, a: char, b: char)
    requires IsReplaced(s, r, a, b)
    ensures IsReplaced([c] + s, [if c == a then b else c] + r, a, b)
  {
    var s', r' := [c] + s, [if c == a then b else c] + r;
    forall i | 0 <= i < |s'| ensures r'[i] == if s'[i] == a then b else s'[i] {
      if i > 0 {
        assert s'[i] == s[i - 1] && r'[i] == r[i - 1];
      }
    }
  }
}
