/**
 * The parts of Go's `strings` and `fmt` packages that the calendar pipeline relies on:
 * `strings.Index`, `strings.Split`, `strings.Join`, `strings.ReplaceAll` with one-character
 * arguments, `strings.ToLower` restricted to ASCII, and `%d` formatting of a natural number.
 */
module GoStrings {
  import opened Wrappers

  /** `sep` occurs in `s` starting at position `i`. */
  predicate OccursAt(s: string, sep: string, i: nat)
  {
    i + |sep| <= |s| && s[i..i + |sep|] == sep
  }

  ghost predicate Contains(s: string, sep: string)
  {
    exists i: nat :: OccursAt(s, sep, i)
  }

  /** The first occurrence of `sep` in `s` at or after position `k`. */
  function IndexFrom(s: string, sep: string, k: nat): (r: Option<nat>)
    requires k <= |s|
    decreases |s| - k
    ensures r.Some? ==> k <= r.value && OccursAt(s, sep, r.value)
    ensures r.Some? ==> forall j: nat :: k <= j < r.value ==> !OccursAt(s, sep, j)
    ensures r.None? ==> forall j: nat :: k <= j ==> !OccursAt(s, sep, j)
  {
    if k + |sep| > |s| then None
    else if s[k..k + |sep|] == sep then Some(k)
    else IndexFrom(s, sep, k + 1)
  }

  /** `strings.Index`, with `None` for Go's -1. */
  function Index(s: string, sep: string): Option<nat>
  {
    IndexFrom(s, sep, 0)
  }

  /** The occurrence found by `Index` is the leftmost one. */
  lemma IndexIsFirst(s: string, sep: string, p: nat)
    requires OccursAt(s, sep, p)
    requires forall j: nat :: j < p ==> !OccursAt(s, sep, j)
    ensures Index(s, sep) == Some(p)
  {
    var r := IndexFrom(s, sep, 0);
    assert r.Some?;
    assert !(r.value < p);
    assert !(p < r.value);
  }

  /**
   * `strings.Split(s, sep)` for a non-empty separator: the pieces between successive
   * leftmost non-overlapping occurrences of `sep`. There is always at least one piece.
   */
  function Split(s: string, sep: string): (parts: seq<string>)
    requires |sep| > 0
    decreases |s|
    ensures |parts| >= 1
  {
    match Index(s, sep)
    case None => [s]
    case Some(i) => [s[..i]] + Split(s[i + |sep|..], sep)
  }

  /** `strings.Join`. */
  function Join(parts: seq<string>, sep: string): string
  {
    if |parts| == 0 then ""
    else if |parts| == 1 then parts[0]
    else parts[0] + sep + Join(parts[1..], sep)
  }

  /** The text before the first occurrence of `sep` holds no occurrence of it. */
  lemma PrefixBeforeIndex(s: string, sep: string, i: nat)
    requires |sep| > 0
    requires Index(s, sep) == Some(i)
    ensures !Contains(s[..i], sep)
  {
    assert forall j: nat :: j < i ==> !OccursAt(s, sep, j);
    forall j: nat | OccursAt(s[..i], sep, j)
      ensures false
    {
      assert s[..i][j..j + |sep|] == s[j..j + |sep|];
      assert OccursAt(s, sep, j);
    }
  }

  lemma JoinCons(x: string, tail: seq<string>, sep: string)
    requires |tail| >= 1
    ensures Join([x] + tail, sep) == x + sep + Join(tail, sep)
  {
    assert ([x] + tail)[1..] == tail;
  }

  /** One step of `Split`: the piece before the first separator, then the rest split again. */
  lemma SplitStep(s: string, sep: string, i: nat)
    requires |sep| > 0
    requires Index(s, sep) == Some(i)
    ensures i + |sep| <= |s|
    ensures Split(s, sep) == [s[..i]] + Split(s[i + |sep|..], sep)
    ensures s == s[..i] + sep + s[i + |sep|..]
  {
    assert OccursAt(s, sep, i);
    SliceAround(s, i, i + |sep|);
  }

  lemma SliceAround(s: string, i: nat, j: nat)
    requires i <= j <= |s|
    ensures s == s[..i] + s[i..j] + s[j..]
  {
  }

  /** Joining the pieces of `Split` gives the text back. */
  lemma {:induction false} SplitJoin(s: string, sep: string)
    requires |sep| > 0
    decreases |s|
    ensures Join(Split(s, sep), sep) == s
  {
    var idx := Index(s, sep);
    if idx.Some? {
      var i := idx.value;
      SplitStep(s, sep, i);
      var rest := s[i + |sep|..];
      SplitJoin(rest, sep);
      JoinCons(s[..i], Split(rest, sep), sep);
    }
  }

  /** No piece of `Split` holds the separator. */
  lemma {:induction false} SplitPiecesFree(s: string, sep: string)
    requires |sep| > 0
    decreases |s|
    ensures forall k :: 0 <= k < |Split(s, sep)| ==> !Contains(Split(s, sep)[k], sep)
  {
    match Index(s, sep)
    case None =>
      assert !Contains(s, sep);
    case Some(i) =>
      var rest := s[i + |sep|..];
      SplitPiecesFree(rest, sep);
      PrefixBeforeIndex(s, sep, i);
      var tail := Split(rest, sep);
      var parts := Split(s, sep);
      assert parts == [s[..i]] + tail;
      forall k | 0 <= k < |parts|
        ensures !Contains(parts[k], sep)
      {
        if k > 0 {
          assert parts[k] == tail[k - 1];
        }
      }
  }

  /**
   * `Split(line, ": ")` has exactly two pieces `a` and `b` iff the line is `a + ": " + b`
   * with neither piece holding `": "`: the separator occurs exactly once.
   */
  lemma SplitColonSpace(line: string, a: string, b: string)
    ensures Split(line, ": ") == [a, b] <==> (line == a + ": " + b && !Contains(a, ": ") && !Contains(b, ": "))
  {
    if Split(line, ": ") == [a, b] {
      SplitIntoTwo(line, a, b);
    }
    if line == a + ": " + b && !Contains(a, ": ") && !Contains(b, ": ") {
      JoinedByColonSpace(line, a, b);
    }
  }

  lemma SplitIntoTwo(line: string, a: string, b: string)
    requires Split(line, ": ") == [a, b]
    ensures line == a + ": " + b && !Contains(a, ": ") && !Contains(b, ": ")
  {
    var sep := ": ";
    SplitJoin(line, sep);
    SplitPiecesFree(line, sep);
    assert Split(line, sep)[0] == a && Split(line, sep)[1] == b;
    assert Join([a, b], sep) == a + sep + Join([b], sep);
  }

  lemma JoinedByColonSpace(line: string, a: string, b: string)
    requires line == a + ": " + b && !Contains(a, ": ") && !Contains(b, ": ")
    ensures Split(line, ": ") == [a, b]
  {
    var sep := ": ";
    FirstColonSpace(line, a, b);
    assert line[..|a|] == a;
    assert line[|a| + 2..] == b;
    assert Split(b, sep) == [b];
  }

  lemma FirstColonSpace(line: string, a: string, b: string)
    requires line == a + ": " + b && !Contains(a, ": ")
    ensures Index(line, ": ") == Some(|a|)
  {
    var sep := ": ";
    assert OccursAt(line, sep, |a|) by {
      assert line[|a|..|a| + 2] == sep;
    }
    forall j: nat | j < |a|
      ensures !OccursAt(line, sep, j)
    {
      if j + 2 <= |a| {
        assert !OccursAt(a, sep, j);
        assert line[j..j + 2] == a[j..j + 2];
      } else {
        assert line[j + 1] == ':';
      }
    }
    IndexIsFirst(line, sep, |a|);
  }

  lemma OccursAtFirstChar(s: string, sep: string, i: nat)
    requires |sep| > 0 && OccursAt(s, sep, i)
    ensures s[i] == sep[0]
  {
    assert s[i..i + |sep|][0] == s[i];
  }

  /** A text without the separator's first character does not split. */
  lemma SplitWithoutSeparator(s: string, sep: string)
    requires |sep| > 0
    requires forall k :: 0 <= k < |s| ==> s[k] != sep[0]
    ensures !Contains(s, sep)
    ensures Split(s, sep) == [s]
  {
    forall i: nat | OccursAt(s, sep, i)
      ensures false
    {
      OccursAtFirstChar(s, sep, i);
    }
    match Index(s, sep)
    case None =>
    case Some(i) =>
      OccursAtFirstChar(s, sep, i);
      assert false;
  }

  // Characters and decimal numbers.

  predicate IsDigit(c: char)
  {
    '0' <= c <= '9'
  }

  predicate AllDigits(s: string)
  {
    forall i :: 0 <= i < |s| ==> IsDigit(s[i])
  }

  function DigitValue(c: char): nat
    requires IsDigit(c)
  {
    c as int - '0' as int
  }

  function DigitChar(n: nat): (c: char)
    requires n < 10
    ensures IsDigit(c) && DigitValue(c) == n
  {
    ('0' as int + n) as char
  }

  /** `fmt.Sprintf("%d", n)` for a natural number: decimal digits, no leading zero. */
  function NatToDecimal(n: nat): string
    decreases n
  {
    if n < 10 then [DigitChar(n)] else NatToDecimal(n / 10) + [DigitChar(n % 10)]
  }

  /** The value of a string of decimal digits, most significant first. */
  function DecimalValue(s: string): nat
    requires AllDigits(s)
    decreases |s|
  {
    if |s| == 0 then 0 else 10 * DecimalValue(s[..|s| - 1]) + DigitValue(s[|s| - 1])
  }

  /** `%d` output is a canonical digit string that reads back as the number printed. */
  lemma {:induction false} DecimalRoundTrip(n: nat)
    decreases n
    ensures |NatToDecimal(n)| > 0 && AllDigits(NatToDecimal(n))
    ensures DecimalValue(NatToDecimal(n)) == n
    ensures |NatToDecimal(n)| > 1 ==> NatToDecimal(n)[0] != '0'
  {
    if n >= 10 {
      DecimalRoundTrip(n / 10);
      var t := NatToDecimal(n / 10);
      var s := NatToDecimal(n);
      assert s == t + [DigitChar(n % 10)];
      assert s[..|s| - 1] == t;
      assert s[0] == t[0];
      if |t| == 1 {
        assert t == [DigitChar(n / 10)];
      }
    }
  }

  // Case and space mapping used for file names and the DISABLE_AI switch.

  predicate IsUpperAscii(c: char)
  {
    'A' <= c <= 'Z'
  }

  /** `unicode.ToLower` on an ASCII letter; every other character is left as it is. */
  function LowerChar(c: char): char
  {
    if IsUpperAscii(c) then (c as int + 32) as char else c
  }

  /** `strings.ToLower`, restricted to ASCII case mapping. */
  function ToLower(s: string): (r: string)
    ensures |r| == |s|
  {
    seq(|s|, i requires 0 <= i < |s| => LowerChar(s[i]))
  }

  /** `strings.ReplaceAll(s, from, to)` where `from` and `to` are single characters. */
  function ReplaceAll(s: string, from: char, to: char): (r: string)
    ensures |r| == |s|
  {
    seq(|s|, i requires 0 <= i < |s| => if s[i] == from then to else s[i])
  }

  /** Every occurrence of `from` becomes `to`; every other character stays. */
  lemma ReplaceAllMeaning(s: string, from: char, to: char)
    ensures forall i :: 0 <= i < |s| && s[i] == from ==> ReplaceAll(s, from, to)[i] == to
    ensures forall i :: 0 <= i < |s| && s[i] != from ==> ReplaceAll(s, from, to)[i] == s[i]
  {
  }

  /** Lower-casing leaves no upper-case ASCII letter and changes nothing else. */
  lemma ToLowerMeaning(s: string)
    ensures forall i :: 0 <= i < |s| ==> !IsUpperAscii(ToLower(s)[i])
    ensures forall i :: 0 <= i < |s| && !IsUpperAscii(s[i]) ==> ToLower(s)[i] == s[i]
    ensures forall i :: 0 <= i < |s| && IsUpperAscii(s[i]) ==> ToLower(s)[i] as int == s[i] as int + 32
  {
  }
}
