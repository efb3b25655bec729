/** The string operations of JavaScript that topic names go through: printing, `split`, `parseInt`. */
module Text {
  import opened Wrappers

  const DIGITS: string := "0123456789"

  // ---------------------------------------------------------------- numbers as text

  predicate IsDigit(c: char) {
    '0' <= c <= '9'
  }

  function DigitValue(c: char): nat
    requires IsDigit(c)
  {
    c as nat - '0' as nat
  }

  function DigitChar(d: nat): (c: char)
    requires d < 10
    ensures IsDigit(c) && DigitValue(c) == d
  {
    ('0' as nat + d) as char
  }

  /** `${n}` for a natural number. */
  function PrintNat(n: nat): (s: string)
    ensures |s| > 0
    ensures forall i :: 0 <= i < |s| ==> IsDigit(s[i])
  {
    if n < 10 then [DigitChar(n)] else PrintNat(n / 10) + [DigitChar(n % 10)]
  }

  /** `${n}` for an integer. */
  function Print(n: int): (s: string)
    ensures |s| > 0
    ensures forall i :: 0 <= i < |s| ==> IsDigit(s[i]) || s[i] == '-'
  {
    if n < 0 then ['-'] + PrintNat(-n) else PrintNat(n)
  }

  /** Printing is canonical: digits alone, after a minus sign when negative, and no zero in front of others. */
  lemma {:induction false} PrintIsDecimal(n: int)
    ensures n < 0 ==> Print(n)[0] == '-' && |Print(n)| > 1 && Print(n)[1] != '0'
    ensures n > 0 ==> Print(n)[0] != '0'
    ensures n == 0 ==> Print(n) == "0"
    ensures forall i :: (if n < 0 then 1 else 0) <= i < |Print(n)| ==> IsDigit(Print(n)[i])
    decreases if n < 0 then 1 else 0, n
  {
    if n < 0 {
      PrintIsDecimal(-n);
    } else if n >= 10 {
      PrintIsDecimal(n / 10);
    }
  }

  // ---------------------------------------------------------------- parseInt

  /** The white space that `parseInt` skips. */
  predicate IsSpace(c: char) {
    var n := c as int;
    9 <= n <= 13 || n == 32 || n == 160 || n == 0x1680 || 0x2000 <= n <= 0x200A || n == 0x2028
    || n == 0x2029 || n == 0x202F || n == 0x205F || n == 0x3000 || n == 0xFEFF
  }

  function TrimStart(s: string): string {
    if s != [] && IsSpace(s[0]) then TrimStart(s[1..]) else s
  }

  function HexValue(c: char): Option<nat> {
    if IsDigit(c) then Some(DigitValue(c))
    else if 'a' <= c <= 'f' then Some(c as nat - 'a' as nat + 10)
    else if 'A' <= c <= 'F' then Some(c as nat - 'A' as nat + 10)
    else None
  }

  function ValueIn(radix: nat, c: char): Option<nat> {
    match HexValue(c)
    case None => None
    case Some(v) => if v < radix then Some(v) else None
  }

  /** The number spelled by the longest run of digits at the start, after `acc`. */
  function Digits(radix: nat, s: string, acc: nat): nat {
    if s == [] || ValueIn(radix, s[0]).None? then acc
    else Digits(radix, s[1..], acc * radix + ValueIn(radix, s[0]).value)
  }

  /** `parseInt(s)`: white space, a sign, `0x` for hexadecimal, then digits; None is NaN. */
  function ParseInt(s: string): Option<int> {
    var t := TrimStart(s);
    var negative := t != [] && t[0] == '-';
    var u := if t != [] && (t[0] == '-' || t[0] == '+') then t[1..] else t;
    var hex := |u| >= 2 && u[0] == '0' && (u[1] == 'x' || u[1] == 'X');
    var v, radix := if hex then u[2..] else u, if hex then 16 else 10;
    if v == [] || ValueIn(radix, v[0]).None? then None
    else
      var magnitude: int := Digits(radix, v, 0);
      Some(if negative then -magnitude else magnitude)
  }

  lemma {:induction false} DigitsSnoc(s: string, c: char, acc: nat)
    requires IsDigit(c) && forall i :: 0 <= i < |s| ==> IsDigit(s[i])
    ensures Digits(10, s + [c], acc) == Digits(10, s, acc) * 10 + DigitValue(c)
  {
    if s == [] {
      assert (s + [c])[1..] == [];
    } else {
      assert (s + [c])[1..] == s[1..] + [c];
      DigitsSnoc(s[1..], c, acc * 10 + DigitValue(s[0]));
    }
  }

  lemma {:induction false} DigitsOfPrint(n: nat)
    ensures Digits(10, PrintNat(n), 0) == n
  {
    if n < 10 {
      DigitsSnoc([], DigitChar(n), 0);
      assert [] + [DigitChar(n)] == [DigitChar(n)];
    } else {
      DigitsOfPrint(n / 10);
      DigitsSnoc(PrintNat(n / 10), DigitChar(n % 10), 0);
    }
  }

  /** Parsing undoes printing, for every integer. */
  lemma ParsePrint(n: int)
    ensures ParseInt(Print(n)) == Some(n)
  {
    var s := Print(n);
    assert TrimStart(s) == s;
    if n < 0 {
      DigitsOfPrint(-n);
      assert s[1..] == PrintNat(-n);
    } else {
      DigitsOfPrint(n);
    }
  }

  lemma {:induction false} DigitsStop(s: string, rest: string, acc: nat)
    requires forall i :: 0 <= i < |s| ==> IsDigit(s[i])
    requires rest == [] || !IsDigit(rest[0])
    ensures Digits(10, s + rest, acc) == Digits(10, s, acc)
  {
    if s != [] {
      assert (s + rest)[1..] == s[1..] + rest;
      DigitsStop(s[1..], rest, acc * 10 + DigitValue(s[0]));
    } else {
      assert s + rest == rest;
    }
  }

  lemma {:induction false} SpacesSkipped(space: string, s: string)
    requires forall i :: 0 <= i < |space| ==> IsSpace(space[i])
    ensures TrimStart(space + s) == TrimStart(s)
  {
    if space != [] {
      assert (space + s)[1..] == space[1..] + s;
      SpacesSkipped(space[1..], s);
    } else {
      assert space + s == s;
    }
  }

  lemma ParseSigned(t: string, u: string)
    requires t != [] && u == if t[0] == '-' then t[1..] else t
    requires u != [] && IsDigit(u[0]) && (|u| >= 2 ==> u[1] != 'x' && u[1] != 'X')
    ensures var magnitude: int := Digits(10, u, 0);
            ParseInt(t) == Some(if t[0] == '-' then -magnitude else magnitude)
  {
    assert TrimStart(t) == t;
    assert ValueIn(10, u[0]) == Some(DigitValue(u[0]));
    hide Digits, TrimStart, ValueIn;
  }

  /** Parsing skips white space before a number and stops after it, at anything but a digit or an x. */
  lemma ParseWithin(space: string, n: int, rest: string)
    requires forall i :: 0 <= i < |space| ==> IsSpace(space[i])
    requires rest == [] || !(IsDigit(rest[0]) || rest[0] == 'x' || rest[0] == 'X')
    ensures ParseInt(space + (Print(n) + rest)) == Some(n)
  {
    var magnitude := if n < 0 then -n else n;
    var digits := PrintNat(magnitude);
    assert Print(n) + rest == (if n < 0 then "-" else "") + (digits + rest);
    assert TrimStart(Print(n) + rest) == Print(n) + rest;
    SpacesSkipped(space, Print(n) + rest);
    hide Digits, TrimStart, PrintNat, Print;
    assert (digits + rest)[0] == digits[0];
    DigitsStop(digits, rest, 0);
    DigitsOfPrint(magnitude);
    assert n < 0 ==> (Print(n) + rest)[1..] == digits + rest;
    ParseSigned(Print(n) + rest, digits + rest);
    hide ParseInt;
    SameTrim(space + (Print(n) + rest), Print(n) + rest);
  }

  /** After 0x the digits are hexadecimal, as many as there are. */
  lemma {:induction false} HexDigits(s: string, c: char, acc: nat)
    requires HexValue(c).Some? && forall i :: 0 <= i < |s| ==> HexValue(s[i]).Some?
    ensures Digits(16, s + [c], acc) == Digits(16, s, acc) * 16 + HexValue(c).value
    ensures ParseInt("0x" + (s + [c])) == Some(Digits(16, s + [c], 0))
  {
    var t := "0x" + (s + [c]);
    assert (s + [c])[0] == if s == [] then c else s[0];
    assert t[2..] == s + [c] && TrimStart(t) == t;
    hide TrimStart, IsSpace;
    if s == [] {
      assert (s + [c])[1..] == [];
    } else {
      assert (s + [c])[1..] == s[1..] + [c];
      HexDigits(s[1..], c, acc * 16 + HexValue(s[0]).value);
    }
  }

  lemma SameTrim(s: string, t: string)
    requires TrimStart(s) == TrimStart(t)
    ensures ParseInt(s) == ParseInt(t)
  {
  }

  // ---------------------------------------------------------------- split

  /** `s.split(sep)` for a one-character separator. */
  function Split(s: string, sep: char): (parts: seq<string>)
    ensures |parts| > 0
  {
    if s == [] then [[]]
    else
      var rest := Split(s[1..], sep);
      if s[0] == sep then [[]] + rest else [[s[0]] + rest[0]] + rest[1..]
  }

  lemma {:induction false} SplitNone(a: string, sep: char)
    requires sep !in a
    ensures Split(a, sep) == [a]
  {
    if a != [] {
      SplitNone(a[1..], sep);
      assert a == [a[0]] + a[1..];
    }
  }

  lemma {:induction false} SplitFirst(a: string, b: string, sep: char)
    requires sep !in a
    ensures Split(a + [sep] + b, sep) == [a] + Split(b, sep)
  {
    var s := a + [sep] + b;
    if a == [] {
      assert s[1..] == b;
    } else {
      assert s[1..] == a[1..] + [sep] + b;
      SplitFirst(a[1..], b, sep);
      assert a == [a[0]] + a[1..];
    }
  }

  /** `parts.join(sep)`. */
  function Join(parts: seq<string>, sep: char): string {
    if parts == [] then []
    else if |parts| == 1 then parts[0]
    else parts[0] + [sep] + Join(parts[1..], sep)
  }

  ghost predicate Free(parts: seq<string>, sep: char) {
    forall i :: 0 <= i < |parts| ==> sep !in parts[i]
  }

  lemma {:induction false} SplitOfJoin(parts: seq<string>, sep: char)
    requires parts != [] && Free(parts, sep)
    ensures Split(Join(parts, sep), sep) == parts
  {
    if |parts| == 1 {
      SplitNone(parts[0], sep);
    } else {
      SplitOfJoin(parts[1..], sep);
      SplitFirst(parts[0], Join(parts[1..], sep), sep);
      hide Split;
      assert parts == [parts[0]] + parts[1..];
    }
  }

  lemma {:induction false} JoinOfSplit(s: string, sep: char)
    ensures Join(Split(s, sep), sep) == s && Free(Split(s, sep), sep)
    decreases |s|
  {
    if s != [] {
      var parts, rest := Split(s, sep), Split(s[1..], sep);
      JoinOfSplit(s[1..], sep);
      assert s == [s[0]] + s[1..];
      if s[0] == sep {
        assert parts[1..] == rest;
      } else if |rest| > 1 {
        assert parts[1..] == rest[1..];
      }
    }
  }

  /** Splitting undoes joining, and nothing else does: the one list of parts without the separator. */
  lemma SplitIff(s: string, sep: char, parts: seq<string>)
    ensures Split(s, sep) == parts <==> parts != [] && Free(parts, sep) && Join(parts, sep) == s
  {
    JoinOfSplit(s, sep);
    if parts != [] && Free(parts, sep) {
      SplitOfJoin(parts, sep);
    }
  }

  // ---------------------------------------------------------------- sets in insertion order

  /** `Array.from(new Set(s))`: each value where it first occurs. */
  function Dedup<T(==)>(s: seq<T>): (d: seq<T>)
    ensures (forall x :: x in d ==> x in s) && (forall x :: x in s ==> x in d)
  {
    if s == [] then []
    else
      var n := |s| - 1;
      assert s == s[..n] + [s[n]];
      Dedup(s[..n]) + if s[n] in s[..n] then [] else [s[n]]
  }

  /** What comes earlier without repetition has come earlier in the list, before the other ever did. */
  lemma {:induction false} DedupOrder<T>(s: seq<T>, i: nat, j: nat)
    requires i < j < |Dedup(s)|
    ensures exists a :: 0 <= a < |s| && s[a] == Dedup(s)[i] && Dedup(s)[j] !in s[..a + 1]
    decreases |s|
  {
    var n := |s| - 1;
    var before := Dedup(s[..n]);
    if j < |before| {
      DedupOrder(s[..n], i, j);
      var a :| 0 <= a < n && s[..n][a] == before[i] && before[j] !in s[..n][..a + 1];
      assert s[..n][..a + 1] == s[..a + 1] && s[a] == Dedup(s)[i];
    } else {
      assert before[i] in s[..n];
      var a :| 0 <= a < n && s[..n][a] == before[i];
      assert s[a] == Dedup(s)[i] && Dedup(s)[j] == s[n];
      assert forall k :: 0 <= k <= a ==> s[..a + 1][k] == s[..n][k];
    }
  }

  lemma DedupEmpty<T>(s: seq<T>)
    ensures Dedup(s) == [] <==> s == []
  {
    if s != [] {
      assert s[0] in Dedup(s);
    }
  }

  ghost predicate Distinct<T>(s: seq<T>) {
    forall i, j :: 0 <= i < j < |s| ==> s[i] != s[j]
  }

  lemma {:induction false} DedupDistinct<T>(s: seq<T>)
    ensures Distinct(Dedup(s))
    decreases |s|
  {
    if s != [] {
      DedupDistinct(s[..|s| - 1]);
    }
  }

  lemma {:induction false} DedupOfDistinct<T>(s: seq<T>)
    requires Distinct(s)
    ensures Dedup(s) == s
    decreases |s|
  {
    if s != [] {
      var n := |s| - 1;
      DedupOfDistinct(s[..n]);
      assert s[n] !in s[..n];
      assert s == s[..n] + [s[n]];
    }
  }

  function Map<A, B>(f: A -> B, s: seq<A>): (t: seq<B>)
    ensures |t| == |s| && forall i :: 0 <= i < |s| ==> t[i] == f(s[i])
  {
    seq(|s|, i requires 0 <= i < |s| => f(s[i]))
  }

  /** Deduplicating commutes with any one-to-one renaming. */
  lemma {:induction false} DedupMap<A, B>(f: A -> B, s: seq<A>)
    requires forall x, y :: x in s && y in s && f(x) == f(y) ==> x == y
    ensures Dedup(Map(f, s)) == Map(f, Dedup(s))
    decreases |s|
  {
    if s != [] {
      var n := |s| - 1;
      DedupMap(f, s[..n]);
      assert Map(f, s)[..n] == Map(f, s[..n]);
      assert f(s[n]) in Map(f, s[..n]) <==> s[n] in s[..n] by {
        if s[n] in s[..n] {
          var i :| 0 <= i < n && s[i] == s[n];
          assert Map(f, s[..n])[i] == f(s[n]);
        }
        if f(s[n]) in Map(f, s[..n]) {
          var i :| 0 <= i < n && Map(f, s[..n])[i] == f(s[n]);
          assert s[i] in s && s[n] in s;
        }
      }
      assert Map(f, Dedup(s[..n]) + [s[n]]) == Map(f, Dedup(s[..n])) + [f(s[n])];
    }
  }
}
