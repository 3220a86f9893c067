/**
 * The three library routines the schema-error locator of v2/pkg/validator/validator.go
 * relies on, with Go's semantics: `strings.TrimPrefix`, `strings.Split` with a one-byte
 * separator, and `strconv.Atoi` on a 64-bit `int`; plus `%d` formatting, which the error
 * report uses and which `Atoi` inverts.
 */
module GoStrings {
  import opened Wrappers

  const MinInt: int := -0x8000_0000_0000_0000
  const MaxInt: int := 0x7fff_ffff_ffff_ffff

  /** `strings.TrimPrefix(s, [p])`: drop one leading `p`, if there is one. */
  function TrimPrefix(s: string, p: char): (r: string)
    ensures |s| > 0 && s[0] == p ==> r == s[1..]
    ensures !(|s| > 0 && s[0] == p) ==> r == s
  {
    if |s| > 0 && s[0] == p then s[1..] else s
  }

  /** The position of the first `c` in `s`. */
  function IndexOfChar(s: string, c: char): (i: nat)
    requires c in s
    ensures i < |s| && s[i] == c
    ensures forall k :: 0 <= k < i ==> s[k] != c
  {
    if s[0] == c then 0
    else
      assert c in s[1..] by {
        var m :| 0 <= m < |s| && s[m] == c;
        assert s[1..][m - 1] == c;
      }
      IndexOfChar(s[1..], c) + 1
  }

  /**
   * `strings.Split(s, [sep])`: the pieces between separators, empty pieces included, so
   * there is always at least one piece.
   */
  function Split(s: string, sep: char): (parts: seq<string>)
    ensures |parts| >= 1
    decreases |s|
  {
    if sep !in s then [s]
    else
      var i := IndexOfChar(s, sep);
      [s[..i]] + Split(s[i + 1..], sep)
  }

  /** No piece of a split holds the separator. */
  lemma {:induction false} SplitNoSep(s: string, sep: char)
    ensures forall k :: 0 <= k < |Split(s, sep)| ==> sep !in Split(s, sep)[k]
    decreases |s|
  {
    if sep in s {
      var i := IndexOfChar(s, sep);
      var rest := Split(s[i + 1..], sep);
      SplitNoSep(s[i + 1..], sep);
      assert Split(s, sep) == [s[..i]] + rest;
      assert sep !in s[..i] by {
        forall m | 0 <= m < i
          ensures s[..i][m] != sep
        {
          assert s[..i][m] == s[m];
        }
      }
    }
  }

  /** `strings.Join(parts, [sep])`. */
  function Join(parts: seq<string>, sep: char): string
    requires |parts| >= 1
  {
    if |parts| == 1 then parts[0] else parts[0] + [sep] + Join(parts[1..], sep)
  }

  /** Joining the pieces gives back the string. */
  lemma {:induction false} JoinSplit(s: string, sep: char)
    ensures Join(Split(s, sep), sep) == s
    decreases |s|
  {
    if sep in s {
      var i := IndexOfChar(s, sep);
      var a, b := s[..i], s[i + 1..];
      assert s == a + [sep] + b;
      assert forall k :: 0 <= k < i ==> a[k] == s[k];
      SplitConcat(a, sep, b);
      JoinSplit(b, sep);
      assert Split(s, sep)[1..] == Split(b, sep);
    } else {
      assert Split(s, sep) == [s];
    }
  }

  /** Splitting a separator-free piece, a separator and a rest: the piece, then the pieces of the rest. */
  lemma SplitConcat(a: string, sep: char, b: string)
    requires sep !in a
    ensures Split(a + [sep] + b, sep) == [a] + Split(b, sep)
  {
    var s := a + [sep] + b;
    assert s[|a|] == sep;
    var j := IndexOfChar(s, sep);
    assert forall k :: 0 <= k < |a| ==> s[k] == a[k];
    assert j == |a|;
    assert s[..j] == a && s[j + 1..] == b;
  }

  /** Splitting a join of separator-free pieces gives back the pieces. */
  lemma {:induction false} SplitJoin(parts: seq<string>, sep: char)
    requires |parts| >= 1
    requires forall k :: 0 <= k < |parts| ==> sep !in parts[k]
    ensures Split(Join(parts, sep), sep) == parts
  {
    if |parts| > 1 {
      var rest := Join(parts[1..], sep);
      SplitConcat(parts[0], sep, rest);
      SplitJoin(parts[1..], sep);
      assert parts == [parts[0]] + parts[1..];
    } else {
      assert Split(parts[0], sep) == [parts[0]];
    }
  }

  predicate IsDigit(c: char) {
    '0' <= c <= '9'
  }

  /** A non-empty run of decimal digits. */
  predicate IsDigits(s: string) {
    |s| > 0 && forall k :: 0 <= k < |s| ==> IsDigit(s[k])
  }

  /** The value of a run of decimal digits, most significant first. */
  function DigitsValue(s: string): nat
    requires forall k :: 0 <= k < |s| ==> IsDigit(s[k])
  {
    if s == [] then 0 else DigitsValue(s[..|s| - 1]) * 10 + DigitOf(s[|s| - 1])
  }

  /** The value of one decimal digit. */
  function DigitOf(c: char): (d: nat)
    requires IsDigit(c)
    ensures d < 10
  {
    (c as int) - ('0' as int)
  }

  /**
   * `strconv.Atoi`: an optional sign followed by at least one decimal digit, whose value
   * fits a 64-bit `int`; anything else is an error (`None`).
   */
  function Atoi(s: string): (r: Option<int>)
    ensures r.Some? ==> MinInt <= r.value <= MaxInt
    ensures s == [] ==> r.None?
  {
    var signed := |s| > 0 && (s[0] == '+' || s[0] == '-');
    var body := if signed then s[1..] else s;
    if !IsDigits(body) then None
    else
      var v: int := if signed && s[0] == '-' then 0 - (DigitsValue(body) as int) else DigitsValue(body);
      if MinInt <= v <= MaxInt then Some(v) else None
  }

  /** `%d` of a non-negative number. */
  function NatToString(n: nat): (s: string)
    ensures IsDigits(s)
  {
    if n < 10 then ['0' + n as char]
    else NatToString(n / 10) + ['0' + (n % 10) as char]
  }

  /** `%d` (or `strconv.Itoa`): a minus sign and the digits of the magnitude for a negative number. */
  function IntToString(n: int): string
  {
    if n < 0 then "-" + NatToString(-n) else NatToString(n)
  }

  lemma {:induction false} NatToStringValue(n: nat)
    ensures DigitsValue(NatToString(n)) == n
  {
    if n >= 10 {
      NatToStringValue(n / 10);
      var s := NatToString(n);
      assert s[..|s| - 1] == NatToString(n / 10);
    }
  }

  /** `Atoi` reads back every 64-bit number written with `%d`. */
  lemma AtoiIntToString(n: int)
    requires MinInt <= n <= MaxInt
    ensures Atoi(IntToString(n)) == Some(n)
  {
    var s := IntToString(n);
    if n < 0 {
      var d := NatToString(-n);
      NatToStringValue(-n);
      assert s[0] == '-' && s[1..] == d;
      assert IsDigits(d);
    } else {
      NatToStringValue(n);
      assert IsDigit(s[0]);
      assert s[0] != '+' && s[0] != '-';
    }
  }

  /** A number written with `%d` contains no `/`. */
  lemma IntToStringNoSlash(n: int)
    ensures '/' !in IntToString(n)
  {
    var d := NatToString(if n < 0 then -n else n);
    assert forall k :: 0 <= k < |d| ==> IsDigit(d[k]);
    if n < 0 {
      assert IntToString(n) == "-" + d;
    }
  }
}
