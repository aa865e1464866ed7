/** Strings as the controllers and the client build and compare them:
    joining with a separator, splitting on one, newline-terminated lines, and
    the decimal rendering of an int (`int.ToString()`). */
module Text {

  /** `string.Join(sep, parts)`. */
  function Join(parts: seq<string>, sep: char): string
  {
    if |parts| == 0 then ""
    else if |parts| == 1 then parts[0]
    else parts[0] + [sep] + Join(parts[1..], sep)
  }

  /** `s.Split(sep)`: the pieces between separators; never empty. */
  function Split(s: string, sep: char): (r: seq<string>)
    ensures |r| > 0
  {
    if |s| == 0 then [""]
    else
      var rest := Split(s[1..], sep);
      if s[0] == sep then [""] + rest else [[s[0]] + rest[0]] + rest[1..]
  }

  /** Each line followed by `nl`, the lines in order (the `output += ... + NewLine` pattern). */
  function Terminated(lines: seq<string>, nl: char): string
  {
    if |lines| == 0 then "" else Terminated(lines[..|lines| - 1], nl) + lines[|lines| - 1] + [nl]
  }

  lemma {:induction false} SplitNoSeparator(s: string, sep: char)
    requires sep !in s
    ensures Split(s, sep) == [s]
  {
    if |s| > 0 {
      SplitNoSeparator(s[1..], sep);
      assert [s[0]] + s[1..] == s;
    }
  }

  lemma {:induction false} SplitAfterPiece(a: string, b: string, sep: char)
    requires sep !in a
    ensures Split(a + [sep] + b, sep) == [a] + Split(b, sep)
  {
    if |a| == 0 {
      assert a + [sep] + b == [sep] + b;
      assert ([sep] + b)[1..] == b;
    } else {
      var s := a + [sep] + b;
      assert s[0] == a[0];
      assert s[1..] == a[1..] + [sep] + b;
      SplitAfterPiece(a[1..], b, sep);
      assert [a[0]] + a[1..] == a;
    }
  }

  /** Splitting a join of separator-free pieces gives the pieces back. */
  lemma {:induction false} SplitJoin(parts: seq<string>, sep: char)
    requires |parts| > 0
    requires forall i :: 0 <= i < |parts| ==> sep !in parts[i]
    ensures Split(Join(parts, sep), sep) == parts
  {
    if |parts| == 1 {
      SplitNoSeparator(parts[0], sep);
    } else {
      SplitJoin(parts[1..], sep);
      SplitAfterPiece(parts[0], Join(parts[1..], sep), sep);
      assert [parts[0]] + parts[1..] == parts;
    }
  }

  /** A character that is neither the separator nor in any piece is not in the join. */
  lemma {:induction false} JoinExcludes(parts: seq<string>, sep: char, c: char)
    requires c != sep
    requires forall i :: 0 <= i < |parts| ==> c !in parts[i]
    ensures c !in Join(parts, sep)
  {
    if |parts| > 1 {
      JoinExcludes(parts[1..], sep, c);
    }
  }

  lemma {:induction false} TerminatedCons(line: string, lines: seq<string>, nl: char)
    ensures Terminated([line] + lines, nl) == line + [nl] + Terminated(lines, nl)
    decreases |lines|
  {
    if |lines| > 0 {
      var all := [line] + lines;
      assert all[..|all| - 1] == [line] + lines[..|lines| - 1];
      TerminatedCons(line, lines[..|lines| - 1], nl);
    } else {
      assert [line] + lines == [line];
      assert [line][..0] == [];
    }
  }

  /** Splitting newline-terminated, newline-free lines gives the lines and a final empty piece. */
  lemma {:induction false} SplitTerminated(lines: seq<string>, nl: char)
    requires forall i :: 0 <= i < |lines| ==> nl !in lines[i]
    ensures Split(Terminated(lines, nl), nl) == lines + [""]
    decreases |lines|
  {
    if |lines| > 0 {
      TerminatedCons(lines[0], lines[1..], nl);
      assert [lines[0]] + lines[1..] == lines;
      SplitTerminated(lines[1..], nl);
      SplitAfterPiece(lines[0], Terminated(lines[1..], nl), nl);
    }
  }

  // ---- decimal rendering of integers -------------------------------------

  function DigitChar(d: nat): (c: char)
    requires d < 10
    ensures '0' <= c <= '9'
  {
    "0123456789"[d]
  }

  function DigitValue(c: char): nat
  {
    if '0' <= c <= '9' then (c as int - '0' as int) else 0
  }

  /** The digits of `n`, most significant first, without leading zeros. */
  function Digits(n: nat): (r: string)
    ensures |r| > 0
    ensures forall i :: 0 <= i < |r| ==> '0' <= r[i] <= '9'
  {
    if n < 10 then [DigitChar(n)] else Digits(n / 10) + [DigitChar(n % 10)]
  }

  /** `i.ToString()` for an int: an optional '-' followed by the digits of |i|. */
  function DecimalText(i: int): (r: string)
    ensures |r| > 0
  {
    if i < 0 then "-" + Digits(-i) else Digits(i)
  }

  /** Reads a string of digits back as a number (the inverse of Digits). */
  function DigitsValue(s: string): nat
  {
    if |s| == 0 then 0 else DigitsValue(s[..|s| - 1]) * 10 + DigitValue(s[|s| - 1])
  }

  function DecimalValue(s: string): int
  {
    if |s| > 0 && s[0] == '-' then -(DigitsValue(s[1..]) as int) else DigitsValue(s) as int
  }

  lemma {:induction false} DigitsRoundTrip(n: nat)
    ensures DigitsValue(Digits(n)) == n
  {
    var s := Digits(n);
    if n < 10 {
      assert s[..0] == [];
      assert DigitValue(DigitChar(n)) == n;
    } else {
      DigitsRoundTrip(n / 10);
      assert s[..|s| - 1] == Digits(n / 10);
      assert DigitValue(DigitChar(n % 10)) == n % 10;
    }
  }

  lemma NaturalRoundTrip(n: nat)
    ensures DecimalValue(Digits(n)) == n
  {
    var s := Digits(n);
    assert s[0] != '-';
    DigitsRoundTrip(n);
  }

  lemma NegativeRoundTrip(n: nat)
    ensures DecimalValue("-" + Digits(n)) == -(n as int)
  {
    var s := "-" + Digits(n);
    assert s[0] == '-' && s[1..] == Digits(n);
    DigitsRoundTrip(n);
  }

  /** The decimal text of an int reads back as that int. */
  lemma DecimalRoundTrip(i: int)
    ensures DecimalValue(DecimalText(i)) == i
  {
    if i < 0 {
      var n: nat := -i;
      assert DecimalText(i) == "-" + Digits(n);
      NegativeRoundTrip(n);
    } else {
      assert DecimalText(i) == Digits(i);
      NaturalRoundTrip(i);
    }
  }

  /** Different ints have different decimal texts. */
  lemma DecimalTextInjective(a: int, b: int)
    requires a != b
    ensures DecimalText(a) != DecimalText(b)
  {
    DecimalRoundTrip(a);
    DecimalRoundTrip(b);
  }
}
