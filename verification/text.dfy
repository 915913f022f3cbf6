/** The string operations the handler relies on: Python's `str.join` and
    `str.split` with a one-character separator, the decimal rendering that
    Python's `str` gives an integer, and substring occurrence. */
module Text {
  import opened Outcomes

  /** `sep.join(parts)`: the parts in order with `sep` between neighbours. */
  function Join(parts: seq<string>, sep: string): string
  {
    if |parts| == 0 then ""
    else if |parts| == 1 then parts[0]
    else parts[0] + sep + Join(parts[1..], sep)
  }

  /** `s.split(c)`: the maximal separator-free pieces of `s`, in order.
      Like Python's, the empty string splits into one empty piece. */
  function Split(s: string, c: char): (pieces: seq<string>)
    ensures |pieces| >= 1
    ensures forall i :: 0 <= i < |pieces| ==> c !in pieces[i]
    decreases |s|
  {
    if |s| == 0 then [""]
    else
      var rest := Split(s[1..], c);
      if s[0] == c then [""] + rest
      else [[s[0]] + rest[0]] + rest[1..]
  }

  /** A separator-free text splits into itself alone. */
  lemma {:induction false} SplitPlain(p: string, c: char)
    requires c !in p
    ensures Split(p, c) == [p]
    decreases |p|
  {
    if |p| > 0 {
      SplitPlain(p[1..], c);
      assert [p[0]] + p[1..] == p;
    }
  }

  /** Splitting `p + c + t` peels `p` off as the first piece. */
  lemma {:induction false} SplitAfterPiece(p: string, t: string, c: char)
    requires c !in p
    ensures Split(p + [c] + t, c) == [p] + Split(t, c)
    decreases |p|
  {
    var s := p + [c] + t;
    if |p| == 0 {
      assert s[0] == c;
      assert s[1..] == t;
    } else {
      assert s[0] == p[0];
      assert s[1..] == p[1..] + [c] + t;
      SplitAfterPiece(p[1..], t, c);
      assert [p[0]] + p[1..] == p;
    }
  }

  /** Joining separator-free pieces and splitting again recovers exactly the
      pieces: the separator is the only thing `Join` adds. */
  lemma {:induction false} SplitJoin(parts: seq<string>, c: char)
    requires |parts| >= 1
    requires forall i :: 0 <= i < |parts| ==> c !in parts[i]
    ensures Split(Join(parts, [c]), c) == parts
    decreases |parts|
  {
    if |parts| == 1 {
      SplitPlain(parts[0], c);
    } else {
      SplitJoin(parts[1..], c);
      SplitAfterPiece(parts[0], Join(parts[1..], [c]), c);
      assert [parts[0]] + parts[1..] == parts;
    }
  }

  // ---------------------------------------------------------------------
  // Decimal rendering of integers (Python's `str(int)`)

  predicate IsDigit(ch: char) { '0' <= ch <= '9' }

  predicate AllDigits(s: string) { forall i :: 0 <= i < |s| ==> IsDigit(s[i]) }

  function DigitChar(d: nat): (ch: char)
    requires d < 10
    ensures IsDigit(ch)
  {
    ('0' as int + d) as char
  }

  function DigitValue(ch: char): nat
    requires IsDigit(ch)
  {
    ch as int - '0' as int
  }

  /** Shortest decimal numeral of `n`, most significant digit first. */
  function NatToDecimal(n: nat): (r: string)
    ensures |r| >= 1 && AllDigits(r)
    decreases n
  {
    if n < 10 then [DigitChar(n)] else NatToDecimal(n / 10) + [DigitChar(n % 10)]
  }

  /** `str(i)` for a Python int: an optional minus sign, then the digits. */
  function IntToDecimal(i: int): string
  {
    if i < 0 then "-" + NatToDecimal(-i) else NatToDecimal(i)
  }

  function ParseNat(s: string): nat
    requires AllDigits(s)
  {
    if |s| == 0 then 0 else ParseNat(s[..|s| - 1]) * 10 + DigitValue(s[|s| - 1])
  }

  /** Reads a decimal integer literal; anything else is `None`. */
  function ParseDecimal(s: string): Option<int>
  {
    if |s| >= 2 && s[0] == '-' && AllDigits(s[1..]) then Some(0 - ParseNat(s[1..]) as int)
    else if |s| >= 1 && AllDigits(s) then Some(ParseNat(s))
    else None
  }

  lemma {:induction false} NatDecimalRoundTrip(n: nat)
    ensures ParseNat(NatToDecimal(n)) == n
    decreases n
  {
    var s := NatToDecimal(n);
    if n >= 10 {
      NatDecimalRoundTrip(n / 10);
      assert s[..|s| - 1] == NatToDecimal(n / 10);
    }
  }

  /** Reading back the decimal rendering of an integer gives the integer. */
  lemma IntDecimalRoundTrip(i: int)
    ensures ParseDecimal(IntToDecimal(i)) == Some(i)
  {
    var s := IntToDecimal(i);
    if i < 0 {
      NatDecimalRoundTrip(-i);
      assert s[1..] == NatToDecimal(-i);
    } else {
      NatDecimalRoundTrip(i);
    }
  }

  /** A decimal rendering is a non-empty run of digits after an optional sign:
      it never contains a comma, a parenthesis or any other punctuation. */
  lemma IntDecimalShape(i: int)
    ensures |IntToDecimal(i)| >= 1
    ensures IntToDecimal(i)[0] == '-' || IsDigit(IntToDecimal(i)[0])
    ensures forall k :: 0 <= k < |IntToDecimal(i)| ==>
              IntToDecimal(i)[k] == '-' || IsDigit(IntToDecimal(i)[k])
  {
  }

  // ---------------------------------------------------------------------
  // Substring occurrence

  /** `needle` appears somewhere inside `hay` as a contiguous run. */
  ghost predicate Occurs(needle: string, hay: string)
  {
    exists i :: 0 <= i <= |hay| && needle <= hay[i..]
  }

  lemma OccursBetween(before: string, needle: string, after: string)
    ensures Occurs(needle, before + needle + after)
  {
    var hay := before + needle + after;
    assert hay[|before|..] == needle + after;
  }

  lemma OccursPrefix(needle: string, hay: string, after: string)
    requires Occurs(needle, hay)
    ensures Occurs(needle, hay + after)
  {
    var i :| 0 <= i <= |hay| && needle <= hay[i..];
    assert (hay + after)[i..] == hay[i..] + after;
  }

  lemma OccursWithin(needle: string, before: string, hay: string, after: string)
    requires Occurs(needle, hay)
    ensures Occurs(needle, before + hay + after)
  {
    var i :| 0 <= i <= |hay| && needle <= hay[i..];
    assert (before + hay + after)[|before| + i..] == hay[i..] + after;
  }

  /** Every part occurs in the joined text: `Join` drops nothing. */
  lemma {:induction false} JoinMentions(parts: seq<string>, sep: string, i: nat)
    requires i < |parts|
    ensures Occurs(parts[i], Join(parts, sep))
    decreases |parts|
  {
    if |parts| == 1 {
      OccursBetween("", parts[0], "");
      assert "" + parts[0] + "" == parts[0];
    } else if i == 0 {
      OccursBetween("", parts[0], sep + Join(parts[1..], sep));
      assert "" + parts[0] + (sep + Join(parts[1..], sep)) == Join(parts, sep);
    } else {
      JoinMentions(parts[1..], sep, i - 1);
      OccursWithin(parts[i], parts[0] + sep, Join(parts[1..], sep), "");
      assert parts[0] + sep + Join(parts[1..], sep) + "" == Join(parts, sep);
    }
  }
}
