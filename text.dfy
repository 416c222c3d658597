/**
 * The JavaScript string operations the console relies on, as total functions on `seq<char>`:
 * `startsWith`, `endsWith`, `includes`, `trim`, `toLowerCase`, the pieces of `split` that the
 * code reads (`split(c)[0]`, `split(c)[1]`, `split(c).pop()`), and number-to-string.
 */
module Text {
  import opened Common

  /** `s.endsWith(suffix)`. (`s.startsWith(prefix)` is Dafny's prefix test `prefix <= s`.) */
  predicate EndsWith(s: string, suffix: string) {
    |suffix| <= |s| && s[|s| - |suffix|..] == suffix
  }

  /** `s.includes(q)`: `q` occurs in `s` at some position. */
  predicate Contains(s: string, q: string)
    decreases |s|
  {
    q <= s || (s != [] && Contains(s[1..], q))
  }

  /** `q` occurs in `s` starting at position `i`. */
  ghost predicate OccursAt(s: string, q: string, i: int) {
    0 <= i <= |s| - |q| && s[i..i + |q|] == q
  }

  /** A slice of `s[1..]` is the slice of `s` one position further on. */
  lemma SliceOfTail(s: string, j: int, n: nat)
    requires 0 <= j && j + 1 + n <= |s|
    ensures s[1..][j..j + n] == s[j + 1..j + 1 + n]
  {
  }

  /** `Contains` holds exactly when `q` occurs in `s` at some position. */
  lemma {:induction false} ContainsIffOccurs(s: string, q: string)
    ensures Contains(s, q) <==> exists i :: OccursAt(s, q, i)
    decreases |s|
  {
    if q <= s {
      assert OccursAt(s, q, 0);
    } else if s == [] {
    } else {
      ContainsIffOccurs(s[1..], q);
      if exists i :: OccursAt(s, q, i) {
        var i :| OccursAt(s, q, i);
        assert i != 0;
        SliceOfTail(s, i - 1, |q|);
        assert OccursAt(s[1..], q, i - 1);
      }
      if Contains(s[1..], q) {
        var j :| OccursAt(s[1..], q, j);
        SliceOfTail(s, j, |q|);
        assert OccursAt(s, q, j + 1);
      }
    }
  }

  /** A one-character query is contained exactly when the character occurs. */
  lemma {:induction false} ContainsChar(s: string, c: char)
    ensures Contains(s, [c]) <==> c in s
    decreases |s|
  {
    if s != [] {
      ContainsChar(s[1..], c);
      assert s == [s[0]] + s[1..];
    }
  }

  /** The empty query is contained in every string (an empty search box matches everything). */
  lemma ContainsEmpty(s: string)
    ensures Contains(s, "")
  {
  }

  /** The code points JavaScript's `trim` removes: the WhiteSpace and LineTerminator characters. */
  predicate IsSpace(c: char) {
    var n := c as int;
    n == 0x09 || n == 0x0A || n == 0x0B || n == 0x0C || n == 0x0D || n == 0x20 ||
    n == 0xA0 || n == 0x1680 || (0x2000 <= n <= 0x200A) || n == 0x2028 || n == 0x2029 ||
    n == 0x202F || n == 0x205F || n == 0x3000 || n == 0xFEFF
  }

  /** `s` with its leading whitespace removed: the longest suffix of `s` not starting with a space. */
  function TrimStart(s: string): (r: string)
    ensures |r| <= |s| && r == s[|s| - |r|..]
    ensures forall i :: 0 <= i < |s| - |r| ==> IsSpace(s[i])
    ensures r == [] || !IsSpace(r[0])
    decreases |s|
  {
    if s != [] && IsSpace(s[0]) then TrimStart(s[1..]) else s
  }

  /** `s` with its trailing whitespace removed: the longest prefix of `s` not ending with a space. */
  function TrimEnd(s: string): (r: string)
    ensures r <= s
    ensures forall i :: |r| <= i < |s| ==> IsSpace(s[i])
    ensures r == [] || !IsSpace(r[|r| - 1])
    decreases |s|
  {
    if s != [] && IsSpace(s[|s| - 1]) then TrimEnd(s[..|s| - 1]) else s
  }

  /** `s.trim()`. */
  function Trim(s: string): string {
    TrimEnd(TrimStart(s))
  }

  /**
   * `!s.trim()`: a field counts as missing exactly when every character of it is whitespace
   * (see `BlankIffTrimEmpty`).
   */
  predicate IsBlank(s: string) {
    forall i :: 0 <= i < |s| ==> IsSpace(s[i])
  }

  /** The blank test is the same as trimming to nothing. */
  lemma {:induction false} BlankIffTrimEmpty(s: string)
    ensures IsBlank(s) <==> Trim(s) == []
  {
    var t := TrimStart(s);
    if Trim(s) == [] {
      assert TrimEnd(t) == [];
      assert t == [];
    } else {
      var r := Trim(s);
      assert r[0] == t[0];
      assert t[0] == s[|s| - |t|];
    }
  }

  /** Trimming twice is the same as trimming once. */
  lemma TrimIdempotent(s: string)
    ensures Trim(Trim(s)) == Trim(s)
  {
  }

  /** `s.split(c).pop()`: the text after the last `c`, or all of `s` when it has no `c`. */
  function LastSegment(s: string, c: char): (r: string)
    ensures |r| <= |s| && r == s[|s| - |r|..]
    ensures c !in r
    ensures |r| < |s| ==> s[|s| - |r| - 1] == c
    decreases |s|
  {
    if s == [] || s[|s| - 1] == c then [] else LastSegment(s[..|s| - 1], c) + [s[|s| - 1]]
  }

  /** `s.split(c)[0]`: the text before the first `c`, or all of `s` when it has no `c`. */
  function FirstSegment(s: string, c: char): (r: string)
    ensures r <= s
    ensures c !in r
    ensures |r| < |s| ==> s[|r|] == c
    decreases |s|
  {
    if s == [] || s[0] == c then [] else [s[0]] + FirstSegment(s[1..], c)
  }

  /**
   * `s.split(c)[1]`: the text between the first and the second `c` (or to the end), and
   * `None` (JavaScript's `undefined`) when `s` holds no `c`.
   */
  function SecondField(s: string, c: char): (r: Option<string>)
    ensures r.None? <==> c !in s
    ensures r.Some? ==>
              var k := |FirstSegment(s, c)|;
              k < |s| && s[k] == c && r.value <= s[k + 1..] && c !in r.value &&
              (k + 1 + |r.value| == |s| || s[k + 1 + |r.value|] == c)
  {
    var first := FirstSegment(s, c);
    if |first| == |s| then None else Some(FirstSegment(s[|first| + 1..], c))
  }

  /** The text before the first `c` of `a + rest`, when `a` holds no `c` and `rest` starts at one. */
  lemma FirstSegmentUpTo(a: string, c: char, rest: string)
    requires c !in a
    requires rest == [] || rest[0] == c
    ensures FirstSegment(a + rest, c) == a
  {
    var s := a + rest;
    var r := FirstSegment(s, c);
    assert r == s[..|r|];
    assert a == s[..|a|];
  }

  /** When `s` holds exactly one `c`, `split(c)[1]` is the whole text after it. */
  lemma SecondFieldOfSingleSeparator(a: string, c: char, b: string)
    requires c !in a && c !in b
    ensures SecondField(a + [c] + b, c) == Some(b)
  {
    var s := a + [c] + b;
    FirstSegmentUpTo(a, c, [c] + b);
    assert a + ([c] + b) == s;
    assert s[|a| + 1..] == b;
    FirstSegmentUpTo(b, c, []);
    assert b + [] == b;
  }

  /** ASCII case folding of one character. */
  function LowerChar(c: char): char {
    if 'A' <= c <= 'Z' then (c as int + 32) as char else c
  }

  /** `s.toLowerCase()` on the ASCII letters; other characters are kept. */
  function Lower(s: string): (r: string)
    ensures |r| == |s|
    ensures forall i :: 0 <= i < |s| ==> r[i] == LowerChar(s[i])
  {
    seq(|s|, i requires 0 <= i < |s| => LowerChar(s[i]))
  }

  /** The decimal digit for `d`. */
  function DigitChar(d: nat): char
    requires d < 10
  {
    ('0' as int + d) as char
  }

  /** `String(n)` for a natural number: its decimal digits, most significant first. */
  function NatToString(n: nat): (r: string)
    ensures r != []
    ensures forall i :: 0 <= i < |r| ==> '0' <= r[i] <= '9'
    decreases n
  {
    if n < 10 then [DigitChar(n)] else NatToString(n / 10) + [DigitChar(n % 10)]
  }

  /** The number a string of decimal digits denotes. */
  function DigitsValue(s: string): int
    decreases |s|
  {
    if s == [] then 0 else 10 * DigitsValue(s[..|s| - 1]) + (s[|s| - 1] as int - '0' as int)
  }

  /** `NatToString` loses nothing: reading the digits back gives the number. */
  lemma {:induction false} NatToStringRoundTrip(n: nat)
    ensures DigitsValue(NatToString(n)) == n
    decreases n
  {
    if n >= 10 {
      NatToStringRoundTrip(n / 10);
      var r := NatToString(n);
      assert r[..|r| - 1] == NatToString(n / 10);
    }
  }

  /** `"." + name.split(".").pop()`: the extension the console records for a file name. */
  function FileExtension(name: string): (r: string)
    ensures r != [] && r[0] == '.' && '.' !in r[1..]
    ensures EndsWith(name, r[1..])
    ensures |r| <= |name| ==> name[|name| - |r|] == '.'
  {
    "." + LastSegment(name, '.')
  }
}
