/** String helpers the relay and the dashboard rely on: substring search
    (`String.prototype.includes`), decimal rendering of integers (`toString`)
    and its inverse (`parseInt` on digit strings), and joining/splitting lines. */
module Text {
  import opened Wrappers

  // ---------------------------------------------------------------------------
  // Substring search

  /** `sub` occurs in `s` starting at index `i`. */
  predicate OccursAt(s: string, sub: string, i: int)
  {
    0 <= i && i + |sub| <= |s| && s[i..i + |sub|] == sub
  }

  predicate IsPrefix(pre: string, s: string)
  {
    |pre| <= |s| && s[..|pre|] == pre
  }

  /** `s.includes(sub)`: some suffix of `s` starts with `sub`. */
  predicate Contains(s: string, sub: string)
    decreases |s|
  {
    IsPrefix(sub, s) || (|s| > 0 && Contains(s[1..], sub))
  }

  /** The search agrees with the positional definition of an occurrence. */
  lemma {:induction false} ContainsIffOccurs(s: string, sub: string)
    ensures Contains(s, sub) <==> exists i :: OccursAt(s, sub, i)
    decreases |s|
  {
    if IsPrefix(sub, s) {
      assert OccursAt(s, sub, 0);
    } else if |s| > 0 {
      ContainsIffOccurs(s[1..], sub);
      if Contains(s[1..], sub) {
        var j :| OccursAt(s[1..], sub, j);
        assert s[1..][j..j + |sub|] == s[j + 1..j + 1 + |sub|];
        assert OccursAt(s, sub, j + 1);
      } else {
        forall i | OccursAt(s, sub, i) && i > 0
          ensures OccursAt(s[1..], sub, i - 1)
        {
          assert s[1..][i - 1..i - 1 + |sub|] == s[i..i + |sub|];
        }
      }
    }
  }

  // ---------------------------------------------------------------------------
  // Decimal numerals

  predicate IsDigit(c: char)
  {
    '0' <= c <= '9'
  }

  predicate AllDigits(s: string)
  {
    forall i :: 0 <= i < |s| ==> IsDigit(s[i])
  }

  /** The form `BigInt.prototype.toString()` produces: digits only, no
      leading zero except for "0" itself. */
  predicate IsCanonicalDecimal(s: string)
  {
    |s| > 0 && AllDigits(s) && (s[0] == '0' ==> |s| == 1)
  }

  function DigitChar(d: nat): (c: char)
    requires d < 10
    ensures IsDigit(c)
  {
    ('0' as int + d) as char
  }

  function DigitValue(c: char): (d: nat)
    requires IsDigit(c)
    ensures d < 10 && DigitChar(d) == c
  {
    c as int - '0' as int
  }

  /** The decimal numeral of `n`, as `n.toString()` renders an integer. */
  function Decimal(n: nat): (r: string)
    ensures IsCanonicalDecimal(r)
    decreases n
  {
    if n < 10 then [DigitChar(n)] else Decimal(n / 10) + [DigitChar(n % 10)]
  }

  /** The value of a string of digits, most significant first. */
  function DigitsValue(s: string): nat
    requires AllDigits(s)
  {
    if |s| == 0 then 0 else 10 * DigitsValue(s[..|s| - 1]) + DigitValue(s[|s| - 1])
  }

  /** `parseInt` restricted to plain digit strings; None stands for `NaN`. */
  function ParseDecimal(s: string): (r: Option<nat>)
    ensures r.Some? <==> |s| > 0 && AllDigits(s)
  {
    if |s| > 0 && AllDigits(s) then Some(DigitsValue(s)) else None
  }

  /** Rendering then parsing gives back the number. */
  lemma {:induction false} ParseDecimalOfDecimal(n: nat)
    ensures ParseDecimal(Decimal(n)) == Some(n)
    decreases n
  {
    var r := Decimal(n);
    if n >= 10 {
      ParseDecimalOfDecimal(n / 10);
      assert r[..|r| - 1] == Decimal(n / 10);
      assert DigitsValue(r) == 10 * (n / 10) + n % 10;
    }
  }

  /** A numeral with a non-zero leading digit denotes a positive number. */
  lemma {:induction false} LeadingDigitPositive(s: string)
    requires |s| > 0 && AllDigits(s) && s[0] != '0'
    ensures DigitsValue(s) >= 1
    decreases |s|
  {
    if |s| > 1 {
      LeadingDigitPositive(s[..|s| - 1]);
    }
  }

  /** Parsing then rendering gives back every canonical numeral, so `Decimal`
      is a bijection between naturals and canonical numerals. */
  lemma {:induction false} DecimalOfParse(s: string)
    requires IsCanonicalDecimal(s)
    ensures Decimal(DigitsValue(s)) == s
    decreases |s|
  {
    if |s| > 1 {
      var p := s[..|s| - 1];
      LeadingDigitPositive(p);
      DecimalOfParse(p);
      var v := DigitsValue(s);
      assert v / 10 == DigitsValue(p) && v % 10 == DigitValue(s[|s| - 1]);
      assert s == p + [s[|s| - 1]];
    }
  }

  // ---------------------------------------------------------------------------
  // Joining and splitting on a separator character

  /** `rows.join(sep)`: separators between rows, none after the last. */
  function Join(rows: seq<string>, sep: char): string
  {
    if |rows| == 0 then ""
    else if |rows| == 1 then rows[0]
    else rows[0] + [sep] + Join(rows[1..], sep)
  }

  /** The first position of `c` in `s`, if any. */
  function IndexOf(s: string, c: char): (r: Option<nat>)
    ensures r.None? <==> c !in s
    ensures r.Some? ==> r.value < |s| && s[r.value] == c && c !in s[..r.value]
  {
    if |s| == 0 then None
    else if s[0] == c then Some(0)
    else match IndexOf(s[1..], c)
      case None => None
      case Some(i) => Some(i + 1)
  }

  /** The last position of `c` in `s`, if any. */
  function LastIndexOf(s: string, c: char): (r: Option<nat>)
    ensures r.None? <==> c !in s
    ensures r.Some? ==> r.value < |s| && s[r.value] == c && c !in s[r.value + 1..]
  {
    if |s| == 0 then None
    else if s[|s| - 1] == c then Some(|s| - 1)
    else LastIndexOf(s[..|s| - 1], c)
  }

  /** `s.split(sep)`: the maximal separator-free pieces, in order. */
  function Split(s: string, sep: char): (r: seq<string>)
    ensures |r| > 0
    decreases |s|
  {
    match IndexOf(s, sep)
    case None => [s]
    case Some(i) => [s[..i]] + Split(s[i + 1..], sep)
  }

  /** The separator after a separator-free head is the first one. */
  lemma {:induction false} FirstSeparator(head: string, sep: char, tail: string)
    requires sep !in head
    ensures IndexOf(head + [sep] + tail, sep) == Some(|head|)
    decreases |head|
  {
    if |head| > 0 {
      var s := head + [sep] + tail;
      assert s[0] == head[0] && s[1..] == head[1..] + [sep] + tail;
      FirstSeparator(head[1..], sep, tail);
    }
  }

  /** The separator before a separator-free tail is the last one. */
  lemma {:induction false} LastSeparator(head: string, sep: char, tail: string)
    requires sep !in tail
    ensures LastIndexOf(head + [sep] + tail, sep) == Some(|head|)
    decreases |tail|
  {
    var s := head + [sep] + tail;
    if |tail| > 0 {
      var front := tail[..|tail| - 1];
      assert s[|s| - 1] == tail[|tail| - 1] && s[..|s| - 1] == head + [sep] + front;
      LastSeparator(head, sep, front);
    }
  }

  /** Splitting undoes joining when no row contains the separator. */
  lemma {:induction false} SplitJoin(rows: seq<string>, sep: char)
    requires |rows| > 0
    requires forall i :: 0 <= i < |rows| ==> sep !in rows[i]
    ensures Split(Join(rows, sep), sep) == rows
    decreases |rows|
  {
    if |rows| > 1 {
      var tail := Join(rows[1..], sep);
      FirstSeparator(rows[0], sep, tail);
      var s := rows[0] + [sep] + tail;
      assert s[..|rows[0]|] == rows[0];
      assert s[|rows[0]| + 1..] == tail;
      SplitJoin(rows[1..], sep);
      assert rows == [rows[0]] + rows[1..];
    }
  }
}
