/**
 * The JavaScript string primitives the source relies on, on `seq<char>`:
 * `split` on a one-character separator, `join`, `trim`, `parseInt(s, 10)`,
 * `Number.prototype.toString` for naturals and `padStart`.
 */
module Text {
  import opened Wrappers

  /** Whitespace as `String.prototype.trim` sees it, restricted to ASCII. */
  predicate IsSpace(c: char) {
    c == ' ' || c == '\t' || c == '\n' || c == '\r'
  }

  predicate IsDigit(c: char) {
    '0' <= c <= '9'
  }

  predicate AllDigits(s: string) {
    forall k :: 0 <= k < |s| ==> IsDigit(s[k])
  }

  // ---------------------------------------------------------------- split / join

  /** `s.split(d)`: the maximal separator-free pieces, empty ones included. */
  function Split(s: string, d: char): (r: seq<string>)
    ensures |r| >= 1
    ensures forall k :: 0 <= k < |r| ==> d !in r[k]
    decreases |s|
  {
    if |s| == 0 then [""]
    else
      var rest := Split(s[1..], d);
      if s[0] == d then [""] + rest
      else [[s[0]] + rest[0]] + rest[1..]
  }

  /** `parts.join(d)` for a non-empty list of parts. */
  function Join(parts: seq<string>, d: char): string
    requires |parts| >= 1
  {
    if |parts| == 1 then parts[0] else parts[0] + [d] + Join(parts[1..], d)
  }

  /** A string without the separator is a single piece. */
  lemma {:induction false} SplitWithoutSeparator(s: string, d: char)
    requires d !in s
    ensures Split(s, d) == [s]
    decreases |s|
  {
    if |s| > 0 {
      SplitWithoutSeparator(s[1..], d);
      assert s == [s[0]] + s[1..];
    }
  }

  /** Splitting distributes over a separator: the pieces of both sides, side by side. */
  lemma {:induction false} SplitAtSeparator(a: string, b: string, d: char)
    ensures Split(a + [d] + b, d) == Split(a, d) + Split(b, d)
    decreases |a|
  {
    var x := a + [d] + b;
    if |a| == 0 {
      assert x[1..] == b;
    } else {
      assert x[0] == a[0] && x[1..] == a[1..] + [d] + b;
      SplitAtSeparator(a[1..], b, d);
      var front, back := Split(a[1..], d), Split(b, d);
      if a[0] != d {
        SplitConsChar(a[0], front, back);
      }
    }
  }

  lemma SplitConsChar(c: char, front: seq<string>, back: seq<string>)
    requires |front| >= 1
    ensures [[c] + (front + back)[0]] + (front + back)[1..] == ([[c] + front[0]] + front[1..]) + back
  {
    assert (front + back)[1..] == front[1..] + back;
  }

  /** `join` and `split` are inverse on separator-free parts. */
  lemma {:induction false} SplitJoin(parts: seq<string>, d: char)
    requires |parts| >= 1
    requires forall k :: 0 <= k < |parts| ==> d !in parts[k]
    ensures Split(Join(parts, d), d) == parts
    decreases |parts|
  {
    if |parts| == 1 {
      SplitWithoutSeparator(parts[0], d);
    } else {
      var rest := Join(parts[1..], d);
      assert Join(parts, d) == parts[0] + [d] + rest;
      SplitJoin(parts[1..], d);
      SplitInFront(parts[0], rest, parts[1..], d);
      assert parts == [parts[0]] + parts[1..];
    }
  }

  /** A separator-free piece and a separator in front of a string add that piece in front of its split. */
  lemma SplitInFront(a: string, rest: string, pieces: seq<string>, d: char)
    requires d !in a && Split(rest, d) == pieces
    ensures Split(a + [d] + rest, d) == [a] + pieces
  {
    SplitAtSeparator(a, rest, d);
    SplitWithoutSeparator(a, d);
  }

  /** The first piece of a split is a prefix of the string. */
  lemma {:induction false} SplitFirstPrefix(s: string, d: char)
    ensures Split(s, d)[0] <= s
    decreases |s|
  {
    if |s| > 0 && s[0] != d {
      SplitFirstPrefix(s[1..], d);
      assert s == [s[0]] + s[1..];
    }
  }

  /** A separator-free front belongs to the first piece. */
  lemma {:induction false} SplitFirstConcat(a: string, b: string, d: char)
    requires d !in a
    ensures Split(a + b, d)[0] == a + Split(b, d)[0]
    decreases |a|
  {
    if a == [] {
      assert a + b == b;
    } else {
      assert (a + b)[0] == a[0] && (a + b)[1..] == a[1..] + b;
      SplitFirstConcat(a[1..], b, d);
      assert a == [a[0]] + a[1..];
    }
  }

  /** Joining the pieces of a split restores the string: the pieces are `s` cut at every separator. */
  lemma {:induction false} JoinSplit(s: string, d: char)
    ensures Join(Split(s, d), d) == s
    decreases |s|
  {
    if |s| > 0 {
      var rest := Split(s[1..], d);
      JoinSplit(s[1..], d);
      if s[0] == d {
        JoinAfterEmpty(rest, d);
      } else {
        JoinExtendFirst(s[0], rest, d);
      }
      assert s == [s[0]] + s[1..];
    }
  }

  /** A leading empty piece contributes just the separator. */
  lemma JoinAfterEmpty(rest: seq<string>, d: char)
    requires |rest| >= 1
    ensures Join([""] + rest, d) == [d] + Join(rest, d)
  {
    assert ([""] + rest)[1..] == rest;
  }

  /** Extending the first piece by a character extends the join by that character. */
  lemma JoinExtendFirst(c: char, rest: seq<string>, d: char)
    requires |rest| >= 1
    ensures Join([[c] + rest[0]] + rest[1..], d) == [c] + Join(rest, d)
  {
    var pieces := [[c] + rest[0]] + rest[1..];
    if |rest| > 1 {
      var j := Join(rest[1..], d);
      assert pieces[1..] == rest[1..];
      assert ([c] + rest[0]) + [d] + j == [c] + (rest[0] + [d] + j);
    }
  }

  /** Two separator-free pieces around one separator split into exactly those two. */
  lemma SplitPair(a: string, b: string, d: char)
    requires d !in a && d !in b
    ensures Split(a + [d] + b, d) == [a, b]
  {
    SplitAtSeparator(a, b, d);
    SplitWithoutSeparator(a, d);
    SplitWithoutSeparator(b, d);
  }

  // ---------------------------------------------------------------- trim

  function TrimStart(s: string): (r: string)
    ensures |r| <= |s| && r == s[|s| - |r|..]
    ensures r == [] || !IsSpace(r[0])
    ensures forall k :: 0 <= k < |s| - |r| ==> IsSpace(s[k])
    decreases |s|
  {
    if |s| > 0 && IsSpace(s[0]) then TrimStart(s[1..]) else s
  }

  function TrimEnd(s: string): (r: string)
    ensures |r| <= |s| && r == s[..|r|]
    ensures r == [] || !IsSpace(r[|r| - 1])
    ensures forall k :: |r| <= k < |s| ==> IsSpace(s[k])
    decreases |s|
  {
    if |s| > 0 && IsSpace(s[|s| - 1]) then TrimEnd(s[..|s| - 1]) else s
  }

  /** `s.trim()`: leading and trailing whitespace removed, the rest untouched. */
  function Trim(s: string): (r: string)
    ensures r == [] || (!IsSpace(r[0]) && !IsSpace(r[|r| - 1]))
    ensures forall c :: c in r ==> c in s
    ensures TrimOf(r, s)
  {
    var t := TrimStart(s);
    var r := TrimEnd(t);
    SliceMembers(t, 0, |r|);
    SliceMembers(s, |s| - |t|, |s|);
    TrimIsSlice(s, t, r);
    r
  }

  /** Cutting whitespace off the front and then off the back leaves a slice with only whitespace around it. */
  lemma TrimIsSlice(s: string, t: string, r: string)
    requires |t| <= |s| && t == s[|s| - |t|..] && forall k :: 0 <= k < |s| - |t| ==> IsSpace(s[k])
    requires |r| <= |t| && r == t[..|r|] && forall k :: |r| <= k < |t| ==> IsSpace(t[k])
    ensures TrimOf(r, s)
  {
    var i := |s| - |t|;
    var j := i + |r|;
    assert r == s[i..j];
    forall k | j <= k < |s| ensures IsSpace(s[k]) {
      assert s[k] == t[k - i];
    }
    assert Surrounding(s, i, j);
  }

  /** r is a slice of s with only whitespace around it. */
  predicate TrimOf(r: string, s: string) {
    exists i, j :: 0 <= i <= j <= |s| && r == s[i..j] && Surrounding(s, i, j)
  }

  /** Everything of s outside `s[i..j]` is whitespace. */
  predicate Surrounding(s: string, i: int, j: int)
    requires 0 <= i <= j <= |s|
  {
    forall k :: 0 <= k < |s| && (k < i || j <= k) ==> IsSpace(s[k])
  }

  /** A slice holds only characters of the string it is cut from. */
  lemma SliceMembers(s: string, i: nat, j: nat)
    requires i <= j <= |s|
    ensures forall c :: c in s[i..j] ==> c in s
  {
    forall c | c in s[i..j] ensures c in s {
      var k :| 0 <= k < j - i && s[i..j][k] == c;
      assert s[i + k] == c;
    }
  }

  /** Trimming a string that neither starts nor ends with whitespace changes nothing. */
  lemma TrimmedFixpoint(s: string)
    requires s == [] || (!IsSpace(s[0]) && !IsSpace(s[|s| - 1]))
    ensures Trim(s) == s
  {
  }

  // ---------------------------------------------------------------- decimal numbers

  function DigitValue(c: char): nat
    requires IsDigit(c)
  {
    (c as int) - ('0' as int)
  }

  function DigitChar(n: nat): (c: char)
    requires n < 10
    ensures IsDigit(c) && DigitValue(c) == n
  {
    (('0' as int) + n) as char
  }

  /** The number a run of decimal digits denotes (leading zeros allowed). */
  function DigitsValue(s: string): nat
    requires AllDigits(s)
  {
    if s == [] then 0 else DigitsValue(s[..|s| - 1]) * 10 + DigitValue(s[|s| - 1])
  }

  /** `n.toString()`: the shortest decimal numeral of n. */
  function NatToDecimal(n: nat): (r: string)
    ensures |r| >= 1 && AllDigits(r)
    ensures DigitsValue(r) == n
    ensures r[0] == '0' ==> n == 0 && r == "0"
    decreases n
  {
    if n < 10 then [DigitChar(n)]
    else
      var r := NatToDecimal(n / 10) + [DigitChar(n % 10)];
      assert r[..|r| - 1] == NatToDecimal(n / 10);
      r
  }

  /** `n.toString()` for an integer, with a leading minus sign when negative. */
  function IntToDecimal(n: int): string {
    if n < 0 then "-" + NatToDecimal(-n) else NatToDecimal(n)
  }

  /** The longest prefix of s made of decimal digits. */
  function LeadingDigits(s: string): (r: string)
    ensures AllDigits(r) && r <= s
    ensures |r| < |s| ==> !IsDigit(s[|r|])
    decreases |s|
  {
    if |s| > 0 && IsDigit(s[0]) then [s[0]] + LeadingDigits(s[1..]) else []
  }

  /**
   * `parseInt(s, 10)` on a string that carries no sign and no leading
   * whitespace: the value of the leading digit run, or None (`NaN`) when
   * that run is empty.
   */
  function ParseInt(s: string): (r: Option<nat>)
    ensures r.None? <==> s == [] || !IsDigit(s[0])
  {
    var ds := LeadingDigits(s);
    if ds == [] then None else Some(DigitsValue(ds))
  }

  /** A string of c's of length n. */
  function Repeat(c: char, n: nat): (r: string)
    ensures |r| == n && forall k :: 0 <= k < n ==> r[k] == c
  {
    if n == 0 then [] else Repeat(c, n - 1) + [c]
  }

  /** `s.padStart(width, c)`. */
  function PadStart(s: string, width: nat, c: char): (r: string)
    ensures |r| == if |s| >= width then |s| else width
    ensures r == Repeat(c, |r| - |s|) + s
  {
    if |s| >= width then s else Repeat(c, width - |s|) + s
  }

  lemma {:induction false} DigitsValueConcat(a: string, b: string)
    requires AllDigits(a) && AllDigits(b)
    ensures AllDigits(a + b)
    ensures DigitsValue(a + b) == DigitsValue(a) * Pow10(|b|) + DigitsValue(b)
    decreases |b|
  {
    if b != [] {
      var b' := b[..|b| - 1];
      assert (a + b)[..|a + b| - 1] == a + b';
      DigitsValueConcat(a, b');
      var x, p, y, d := DigitsValue(a), Pow10(|b'|), DigitsValue(b'), DigitValue(b[|b| - 1]);
      assert DigitsValue(a + b) == DigitsValue(a + b') * 10 + d;
      assert DigitsValue(b) == y * 10 + d;
      assert Pow10(|b|) == p * 10;
      ShiftDigit(x, p, y, d);
    } else {
      assert a + b == a;
    }
  }

  lemma ShiftDigit(x: int, p: int, y: int, d: int)
    ensures (x * p + y) * 10 + d == x * (p * 10) + (y * 10 + d)
  {
  }

  function Pow10(n: nat): nat {
    if n == 0 then 1 else Pow10(n - 1) * 10
  }

  /** Leading zeros do not change the value of a numeral. */
  lemma {:induction false} LeadingZeros(n: nat, s: string)
    requires AllDigits(s)
    ensures AllDigits(Repeat('0', n) + s)
    ensures DigitsValue(Repeat('0', n) + s) == DigitsValue(s)
  {
    ZerosValue(n);
    DigitsValueConcat(Repeat('0', n), s);
  }

  lemma {:induction false} ZerosValue(n: nat)
    ensures AllDigits(Repeat('0', n)) && DigitsValue(Repeat('0', n)) == 0
  {
    if n > 0 {
      ZerosValue(n - 1);
      assert Repeat('0', n)[..n - 1] == Repeat('0', n - 1);
    }
  }

  /** `parseInt` reads back the zero-padded `toString` of a natural number. */
  lemma ParsePadded(n: nat, width: nat)
    ensures AllDigits(PadStart(NatToDecimal(n), width, '0'))
    ensures ParseInt(PadStart(NatToDecimal(n), width, '0')) == Some(n)
  {
    var s := NatToDecimal(n);
    var p := PadStart(s, width, '0');
    LeadingZeros(|p| - |s|, s);
    AllDigitsLeading(p);
  }

  /** `parseInt` reads a leading digit run up to the first non-digit: `parseInt("12abc") == 12`. */
  lemma ParseDigitsThen(ds: string, rest: string)
    requires ds != [] && AllDigits(ds)
    requires rest == [] || !IsDigit(rest[0])
    ensures ParseInt(ds + rest) == Some(DigitsValue(ds))
  {
    LeadingDigitsThen(ds, rest);
  }

  /** The decimal numeral of n followed by text that does not start with a digit parses as n. */
  lemma ParseNumberThen(n: nat, rest: string)
    requires rest == [] || !IsDigit(rest[0])
    ensures ParseInt(NatToDecimal(n) + rest) == Some(n)
  {
    ParseDigitsThen(NatToDecimal(n), rest);
  }

  lemma {:induction false} LeadingDigitsThen(ds: string, rest: string)
    requires AllDigits(ds)
    requires rest == [] || !IsDigit(rest[0])
    ensures LeadingDigits(ds + rest) == ds
    decreases |ds|
  {
    if ds != [] {
      assert (ds + rest)[1..] == ds[1..] + rest;
      LeadingDigitsThen(ds[1..], rest);
      assert ds == [ds[0]] + ds[1..];
    } else {
      assert ds + rest == rest;
    }
  }

  /** The leading digit run of an all-digit string is the whole string. */
  lemma {:induction false} AllDigitsLeading(s: string)
    requires AllDigits(s)
    ensures LeadingDigits(s) == s
    decreases |s|
  {
    if |s| > 0 {
      AllDigitsLeading(s[1..]);
    }
  }

  /** Text before the first separator is determined, and so is text after it. */
  lemma SepCancel(a: string, x: string, b: string, y: string, d: char)
    requires d !in a && d !in b
    requires a + ([d] + x) == b + ([d] + y)
    ensures a == b && x == y
  {
    var c := a + ([d] + x);
    FirstIndexAfter(a, x, d);
    FirstIndexAfter(b, y, d);
    assert a == c[..|a|] && b == c[..|b|];
    assert x == c[|a| + 1..] && y == c[|b| + 1..];
  }

  /** The position of the first `d` in `s`. */
  function FirstIndex(s: string, d: char): (r: nat)
    requires d in s
    ensures r < |s| && s[r] == d && d !in s[..r]
  {
    if s[0] == d then 0
    else
      assert d in s[1..];
      var k := FirstIndex(s[1..], d);
      assert s[..k + 1] == [s[0]] + s[1..][..k];
      1 + k
  }

  lemma {:induction false} FirstIndexAfter(a: string, x: string, d: char)
    requires d !in a
    ensures d in a + ([d] + x) && FirstIndex(a + ([d] + x), d) == |a|
    decreases |a|
  {
    var c := a + ([d] + x);
    assert c[|a|] == d;
    if a != [] {
      assert c[1..] == a[1..] + ([d] + x);
      FirstIndexAfter(a[1..], x, d);
    }
  }
}
