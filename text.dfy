/**
 * The handful of Python string operations the core relies on, written out
 * over `seq<char>`: `str.split` with a one-character separator, `str.join`,
 * `str.replace(pattern, "")`, `str.rstrip(c)`, `int()` of a decimal string
 * and `str()` of a natural number.
 */
module Text {
  import opened Wrappers

  /** Python's `s.split(sep)` for a one-character separator: the pieces
      between separators, in order, empty pieces included. */
  function Split(s: string, sep: char): (r: seq<string>)
    ensures |r| >= 1
    ensures forall i :: 0 <= i < |r| ==> sep !in r[i]
  {
    if s == [] then [""]
    else
      var rest := Split(s[1..], sep);
      if s[0] == sep then [""] + rest
      else [[s[0]] + rest[0]] + rest[1..]
  }

  /** Python's `sep.join(parts)`. */
  function Join(sep: string, parts: seq<string>): string
  {
    if |parts| == 0 then ""
    else if |parts| == 1 then parts[0]
    else parts[0] + sep + Join(sep, parts[1..])
  }

  /** Joining the pieces of a split with the separator gives back the string. */
  lemma {:induction false} JoinSplit(s: string, sep: char)
    ensures Join([sep], Split(s, sep)) == s
  {
    if s != [] {
      var rest := Split(s[1..], sep);
      JoinSplit(s[1..], sep);
      if s[0] == sep {
        assert Split(s, sep) == [""] + rest;
        assert ([""] + rest)[1..] == rest;
        assert Join([sep], [""] + rest) == "" + [sep] + Join([sep], rest);
        assert s == [s[0]] + s[1..];
      } else {
        var parts := [[s[0]] + rest[0]] + rest[1..];
        assert Split(s, sep) == parts;
        if |rest| == 1 {
          assert Join([sep], parts) == [s[0]] + rest[0];
          assert Join([sep], rest) == rest[0];
        } else {
          assert parts[1..] == rest[1..];
          assert Join([sep], parts) == [s[0]] + rest[0] + [sep] + Join([sep], rest[1..]);
          assert Join([sep], rest) == rest[0] + [sep] + Join([sep], rest[1..]);
        }
        assert s == [s[0]] + s[1..];
      }
    }
  }

  /** Python's `s.split(sep)[-1]`. */
  function LastSegment(s: string, sep: char): string
  {
    var parts := Split(s, sep);
    parts[|parts| - 1]
  }

  /** The last piece of a split is the suffix of `s` after its last
      separator (all of `s` when it holds none). */
  lemma LastSegmentIsSuffix(s: string, sep: char)
    ensures var r := LastSegment(s, sep);
      && sep !in r && |r| <= |s| && s[|s| - |r|..] == r
      && (|r| < |s| ==> s[|s| - |r| - 1] == sep)
  {
    var parts := Split(s, sep);
    JoinSplit(s, sep);
    JoinEndsWith([sep], parts);
    var r := parts[|parts| - 1];
    if |parts| > 1 {
      assert s[|s| - |r| - 1..] == [sep] + r;
      assert s[|s| - |r|..] == s[|s| - |r| - 1..][1..];
    }
  }

  /** A join ends with its last part, preceded by the separator when there
      are several parts. */
  lemma {:induction false} JoinEndsWith(sep: string, parts: seq<string>)
    requires |parts| >= 1
    ensures var j := Join(sep, parts); var last := parts[|parts| - 1];
      && (|parts| == 1 ==> j == last)
      && (|parts| > 1 ==> |sep| + |last| <= |j| && j[|j| - |last| - |sep|..] == sep + last)
    decreases |parts|
  {
    if |parts| > 1 {
      var rest := Join(sep, parts[1..]);
      JoinEndsWith(sep, parts[1..]);
      assert Join(sep, parts) == parts[0] + sep + rest;
      var last := parts[|parts| - 1];
      assert parts[1..][|parts[1..]| - 1] == last;
      var j := Join(sep, parts);
      if |parts| == 2 {
        assert rest == last;
        assert j[|j| - |last| - |sep|..] == sep + last;
      } else {
        assert rest[|rest| - |last| - |sep|..] == sep + last;
        assert j[|j| - |last| - |sep|..] == rest[|rest| - |last| - |sep|..];
      }
    }
  }

  /** `s.rstrip(c)`: `s` without its trailing run of `c`. */
  function RStrip(s: string, c: char): (r: string)
    ensures r <= s
    ensures r == [] || r[|r| - 1] != c
    ensures forall i :: |r| <= i < |s| ==> s[i] == c
  {
    if s == [] || s[|s| - 1] != c then s
    else RStrip(s[..|s| - 1], c)
  }

  /** `pat` occurs in `s` at some position. */
  ghost predicate Occurs(s: string, pat: string)
  {
    exists i :: OccursAt(s, pat, i)
  }

  /** `pat` occurs in `s` starting at index `i`. */
  ghost predicate OccursAt(s: string, pat: string, i: int)
  {
    0 <= i && i + |pat| <= |s| && s[i..i + |pat|] == pat
  }

  /** No proper prefix of `pat` is also a suffix of it, so two occurrences
      can never overlap. */
  predicate Borderless(pat: string)
  {
    forall k :: 0 < k < |pat| ==> pat[..k] != pat[|pat| - k..]
  }

  /** `s.replace(pat, "")`: every occurrence of `pat`, scanned left to
      right without overlap, removed. */
  function RemoveAll(s: string, pat: string): (r: string)
    requires pat != []
    ensures |r| <= |s|
    decreases |s|
  {
    if |s| < |pat| then s
    else if s[..|pat|] == pat then RemoveAll(s[|pat|..], pat)
    else [s[0]] + RemoveAll(s[1..], pat)
  }

  /** Removing a borderless pattern from `x + pat` leaves `x`, when `x`
      does not hold the pattern itself. */
  lemma {:induction false} RemoveTrailing(x: string, pat: string)
    requires pat != [] && Borderless(pat) && !Occurs(x, pat)
    ensures RemoveAll(x + pat, pat) == x
    decreases |x|
  {
    var s := x + pat;
    if x == [] {
      assert s[..|pat|] == pat;
      assert s[|pat|..] == [];
    } else {
      if |x| >= |pat| {
        assert !OccursAt(x, pat, 0);
        assert s[..|pat|] == x[0..0 + |pat|];
      } else {
        var k := |pat| - |x|;
        assert pat[..k] != pat[|pat| - k..];
        assert s[..|pat|][|x|..] == pat[..k];
        assert pat[|x|..] == pat[|pat| - k..];
      }
      assert s[..|pat|] != pat;
      OccursInTail(x, pat);
      assert !Occurs(x[1..], pat);
      RemoveTrailing(x[1..], pat);
      assert s[1..] == x[1..] + pat;
      assert [s[0]] + x[1..] == x;
    }
  }

  /** An occurrence in the tail of `x` is an occurrence in `x`. */
  lemma OccursInTail(x: string, pat: string)
    requires x != []
    ensures Occurs(x[1..], pat) ==> Occurs(x, pat)
  {
    if Occurs(x[1..], pat) {
      var i :| OccursAt(x[1..], pat, i);
      assert x[i + 1..i + 1 + |pat|] == x[1..][i..i + |pat|];
      assert OccursAt(x, pat, i + 1);
    }
  }

  predicate AllDigits(s: string)
  {
    forall i :: 0 <= i < |s| ==> '0' <= s[i] <= '9'
  }

  /** The value of a string of decimal digits. */
  function DigitsValue(s: string): nat
    requires AllDigits(s)
  {
    if s == [] then 0
    else DigitsValue(s[..|s| - 1]) * 10 + (s[|s| - 1] as int - '0' as int)
  }

  /** Python's `int(s)` on text: an optional sign and at least one ASCII
      digit; anything else raises `ValueError` (here `None`). */
  function ParseInt(s: string): (r: Option<int>)
    ensures r.Some? <==>
      (s != [] && AllDigits(s)) || (|s| > 1 && (s[0] == '-' || s[0] == '+') && AllDigits(s[1..]))
  {
    if s != [] && (s[0] == '-' || s[0] == '+') then
      if |s| > 1 && AllDigits(s[1..]) then
        Some(if s[0] == '-' then 0 - DigitsValue(s[1..]) else DigitsValue(s[1..]))
      else None
    else if s != [] && AllDigits(s) then Some(DigitsValue(s))
    else None
  }

  /** `str(n)` for a natural number: its decimal digits, no leading zero. */
  function DecimalString(n: nat): (r: string)
    ensures r != [] && AllDigits(r) && DigitsValue(r) == n
    ensures |r| > 1 ==> r[0] != '0'
  {
    var d := ['0' + (n % 10) as char];
    if n < 10 then d
    else
      var prefix := DecimalString(n / 10);
      var r := prefix + d;
      assert r[..|r| - 1] == prefix;
      r
  }

  /** `int(str(n)) == n`: a number written as text reads back unchanged. */
  lemma ParseDecimal(n: nat)
    ensures ParseInt(DecimalString(n)) == Some(n)
  {
  }
}
