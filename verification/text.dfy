/** The handful of Python string operations the marshaller relies on:
    `str.split` on one character, `str.join`, the slices `s[:-1]` and
    `s[:-n]`, and the decimal codec behind `int(s)` and `str(i)`. */
module Text {
  import opened Wrappers

  /** `s.split(c)`: the pieces between occurrences of `c`; never empty. */
  function Split(s: string, c: char): (r: seq<string>)
    ensures |r| >= 1
    ensures forall i :: 0 <= i < |r| ==> c !in r[i]
    decreases |s|
  {
    if |s| == 0 then [""]
    else
      var rest := Split(s[1..], c);
      if s[0] == c then [""] + rest else [[s[0]] + rest[0]] + rest[1..]
  }

  /** `s.split(c)[0]`. */
  function FirstPiece(s: string, c: char): string
  {
    Split(s, c)[0]
  }

  /** `s.split(c)[-1]`. */
  function LastPiece(s: string, c: char): string
  {
    var pieces := Split(s, c);
    pieces[|pieces| - 1]
  }

  /** `sep.join(parts)`. */
  function Join(parts: seq<string>, sep: string): string
  {
    if |parts| == 0 then ""
    else if |parts| == 1 then parts[0]
    else parts[0] + sep + Join(parts[1..], sep)
  }

  /** `s[:-1]` (also written `s[0:-1]`): empty for the empty string. */
  function DropLast(s: string): string
  {
    if |s| == 0 then s else s[..|s| - 1]
  }

  /** `s[:-n]` for a positive `n`. */
  function DropLastN(s: string, n: nat): string
  {
    if |s| <= n then "" else s[..|s| - n]
  }

  predicate EndsWith(s: string, suffix: string)
  {
    |suffix| <= |s| && s[|s| - |suffix|..] == suffix
  }

  /** Splitting at one occurrence of the separator splits the two sides
      independently. */
  lemma {:induction false} SplitConcat(p: string, c: char, t: string)
    ensures Split(p + [c] + t, c) == Split(p, c) + Split(t, c)
    decreases |p|
  {
    var s := p + [c] + t;
    if |p| == 0 {
      assert s[0] == c && s[1..] == t;
    } else {
      assert s[0] == p[0] && s[1..] == p[1..] + [c] + t;
      SplitConcat(p[1..], c, t);
    }
  }

  /** A string without the separator is a single piece. */
  lemma {:induction false} SplitNone(s: string, c: char)
    requires c !in s
    ensures Split(s, c) == [s]
    decreases |s|
  {
    if |s| > 0 {
      assert c !in s[1..] by {
        forall i | 0 <= i < |s[1..]| ensures s[1..][i] != c { assert s[1..][i] == s[i + 1]; }
      }
      SplitNone(s[1..], c);
      assert [s[0]] + s[1..] == s;
    }
  }

  /** A string holding the separator splits into at least two pieces. */
  lemma SplitAtLeastTwo(s: string, c: char)
    requires c in s
    ensures |Split(s, c)| >= 2
  {
    var i :| 0 <= i < |s| && s[i] == c;
    assert s == s[..i] + [c] + s[i + 1..];
    SplitConcat(s[..i], c, s[i + 1..]);
  }

  /** Joining the pieces of a split restores the string. */
  lemma {:induction false} JoinSplit(s: string, c: char)
    ensures Join(Split(s, c), [c]) == s
    decreases |s|
  {
    if |s| > 0 {
      var rest := Split(s[1..], c);
      JoinSplit(s[1..], c);
      if s[0] == c {
        assert Split(s, c) == [""] + rest;
        assert s == [c] + s[1..];
      } else {
        var r := [[s[0]] + rest[0]] + rest[1..];
        assert Split(s, c) == r;
        if |rest| == 1 {
          assert Join(rest, [c]) == rest[0];
        } else {
          assert Join(rest, [c]) == rest[0] + [c] + Join(rest[1..], [c]);
          assert Join(r, [c]) == [s[0]] + rest[0] + [c] + Join(rest[1..], [c]);
        }
        assert s == [s[0]] + s[1..];
      }
    }
  }

  /** Splitting a join of separator-free pieces gives the pieces back. */
  lemma {:induction false} SplitJoin(parts: seq<string>, c: char)
    requires |parts| >= 1
    requires forall i :: 0 <= i < |parts| ==> c !in parts[i]
    ensures Split(Join(parts, [c]), c) == parts
    decreases |parts|
  {
    SplitNone(parts[0], c);
    if |parts| > 1 {
      SplitJoin(parts[1..], c);
      SplitConcat(parts[0], c, Join(parts[1..], [c]));
      assert [parts[0]] + parts[1..] == parts;
    }
  }

  /** The last piece of `p + c + t` is the last piece of `t`. */
  lemma LastPieceAfter(p: string, c: char, t: string)
    ensures LastPiece(p + [c] + t, c) == LastPiece(t, c)
  {
    SplitConcat(p, c, t);
  }

  /** The first piece of `p + c + t` is `p` when `p` has no separator. */
  lemma FirstPieceBefore(p: string, c: char, t: string)
    requires c !in p
    ensures FirstPiece(p + [c] + t, c) == p
  {
    SplitConcat(p, c, t);
    SplitNone(p, c);
  }

  // ---------------------------------------------------------------------
  // Decimal integers

  predicate IsDigit(ch: char)
  {
    '0' <= ch <= '9'
  }

  predicate AllDigits(s: string)
  {
    forall i :: 0 <= i < |s| ==> IsDigit(s[i])
  }

  function DigitChar(d: nat): (ch: char)
    requires d < 10
    ensures IsDigit(ch)
  {
    "0123456789"[d]
  }

  function DigitValue(ch: char): nat
    requires IsDigit(ch)
  {
    (ch as int - '0' as int) as nat
  }

  /** The value of a string of decimal digits. */
  function DigitsValue(s: string): nat
    requires AllDigits(s)
  {
    if |s| == 0 then 0 else DigitsValue(s[..|s| - 1]) * 10 + DigitValue(s[|s| - 1])
  }

  /** `str(n)` for a natural number. */
  function NatStr(n: nat): (s: string)
    ensures |s| >= 1 && AllDigits(s)
  {
    if n < 10 then [DigitChar(n)] else NatStr(n / 10) + [DigitChar(n % 10)]
  }

  /** `str(i)` for an integer. */
  function IntStr(i: int): string
  {
    if i < 0 then "-" + NatStr(-i) else NatStr(i)
  }

  /** `int(s)`: an optional sign followed by at least one ASCII digit, or
      `None` where Python raises ValueError. */
  function ParseInt(s: string): Option<int>
  {
    if |s| > 0 && (s[0] == '-' || s[0] == '+') then
      if |s| > 1 && AllDigits(s[1..]) then
        var magnitude: int := DigitsValue(s[1..]);
        Some(if s[0] == '-' then -magnitude else magnitude)
      else None
    else if |s| > 0 && AllDigits(s) then Some(DigitsValue(s))
    else None
  }

  lemma {:induction false} NatStrValue(n: nat)
    ensures DigitsValue(NatStr(n)) == n
  {
    if n >= 10 {
      var s := NatStr(n);
      NatStrValue(n / 10);
      assert s[..|s| - 1] == NatStr(n / 10);
      assert DigitValue(DigitChar(n % 10)) == n % 10;
    } else {
      assert DigitValue(DigitChar(n)) == n;
    }
  }

  /** `int(str(i)) == i`. */
  lemma IntStrRoundTrip(i: int)
    ensures ParseInt(IntStr(i)) == Some(i)
  {
    if i < 0 {
      var t := NatStr(-i);
      var s := "-" + t;
      assert IntStr(i) == s;
      assert s[1..] == t;
      NatStrValue(-i);
      var m: int := DigitsValue(s[1..]);
      assert m == -i;
    } else {
      var s := NatStr(i);
      assert IntStr(i) == s;
      NatStrValue(i);
      assert IsDigit(s[0]);
      var m: int := DigitsValue(s);
      assert m == i;
    }
  }

  /** The text of an integer holds only digits and a leading minus sign, so
      it never contains a separator the marshaller splits on. */
  lemma IntStrChars(i: int, c: char)
    requires !IsDigit(c) && c != '-'
    ensures c !in IntStr(i)
  {
    var s := IntStr(i);
    if i < 0 {
      forall k | 0 <= k < |s| ensures s[k] != c {
        if k > 0 { assert s[k] == NatStr(-i)[k - 1]; }
      }
    }
  }
}
