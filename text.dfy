/** String helpers shared by every list page: the JavaScript string operations
    the pages call (`toLowerCase`, `toUpperCase`, `includes`, `trim`, `startsWith`),
    restricted to what the model needs. Case mapping is ASCII-only. */
module Text {

  /** ASCII lowercase of one character; every other character is unchanged. */
  function LowerChar(c: char): char {
    if 'A' <= c <= 'Z' then (c as int + 32) as char else c
  }

  /** ASCII uppercase of one character; every other character is unchanged. */
  function UpperChar(c: char): char {
    if 'a' <= c <= 'z' then (c as int - 32) as char else c
  }

  /** `s.toLowerCase()` */
  function Lower(s: string): (r: string)
    ensures |r| == |s|
    ensures forall c :: c in r ==> !('A' <= c <= 'Z')
  {
    seq(|s|, i requires 0 <= i < |s| => LowerChar(s[i]))
  }

  /** `s.toUpperCase()` */
  function Upper(s: string): (r: string)
    ensures |r| == |s|
    ensures forall c :: c in r ==> !('a' <= c <= 'z')
  {
    seq(|s|, i requires 0 <= i < |s| => UpperChar(s[i]))
  }

  /** Lowercasing twice is lowercasing once, so a lowercased query searched in a
      lowercased field does not depend on the case the user typed. */
  lemma LowerIdempotent(s: string)
    ensures Lower(Lower(s)) == Lower(s)
  {
  }

  predicate IsPrefix(p: string, s: string) {
    |p| <= |s| && s[..|p|] == p
  }

  /** q occurs in s starting at index i. */
  predicate OccursAt(s: string, q: string, i: int) {
    0 <= i <= |s| - |q| && s[i..i + |q|] == q
  }

  /** `s.includes(q)`: q occurs in s as a contiguous block. */
  function Contains(s: string, q: string): (r: bool)
    ensures r <==> exists i :: OccursAt(s, q, i)
    decreases |s|
  {
    if IsPrefix(q, s) then
      assert OccursAt(s, q, 0);
      true
    else if s == [] then
      false
    else
      var r := Contains(s[1..], q);
      if r then
        var i :| OccursAt(s[1..], q, i);
        assert s[i + 1..i + 1 + |q|] == s[1..][i..i + |q|];
        assert OccursAt(s, q, i + 1);
        true
      else
        forall i | OccursAt(s, q, i) ensures OccursAt(s[1..], q, i - 1) {
          OccursInTail(s, q, i);
        }
        false
  }

  /** An occurrence after the first character is an occurrence in the tail. */
  lemma OccursInTail(s: string, q: string, i: int)
    requires OccursAt(s, q, i) && (i > 0 || !IsPrefix(q, s))
    ensures OccursAt(s[1..], q, i - 1)
  {
    assert i != 0;
    assert s[1..][i - 1..i - 1 + |q|] == s[i..i + |q|];
  }

  /** Every string contains the empty string. */
  lemma ContainsEmpty(s: string)
    ensures Contains(s, "")
  {
    assert OccursAt(s, "", 0);
  }

  /** A string contains itself. */
  lemma ContainsSelf(s: string)
    ensures Contains(s, s)
  {
    assert OccursAt(s, s, 0);
  }

  /** A string never contains a longer one. */
  lemma LongerNotContained(s: string, q: string)
    requires |q| > |s|
    ensures !Contains(s, q)
  {
  }

  /** The code points `String.prototype.trim` removes: ECMAScript WhiteSpace
      (tab, vertical tab, form feed, space, no-break space, byte order mark and
      the Unicode space separators) and LineTerminator (LF, CR, LS, PS). */
  predicate IsSpace(c: char) {
    var n := c as int;
    n == 0x09 || n == 0x0A || n == 0x0B || n == 0x0C || n == 0x0D || n == 0x20 ||
    n == 0xA0 || n == 0x1680 || (0x2000 <= n <= 0x200A) || n == 0x2028 ||
    n == 0x2029 || n == 0x202F || n == 0x205F || n == 0x3000 || n == 0xFEFF
  }

  function TrimStart(s: string): (r: string)
    ensures |r| <= |s|
    ensures r == s[|s| - |r|..]
    ensures r == [] || !IsSpace(r[0])
    ensures forall i :: 0 <= i < |s| - |r| ==> IsSpace(s[i])
  {
    if s != [] && IsSpace(s[0]) then TrimStart(s[1..]) else s
  }

  function TrimEnd(s: string): (r: string)
    ensures |r| <= |s|
    ensures r == s[..|r|]
    ensures r == [] || !IsSpace(r[|r| - 1])
    ensures forall i :: |r| <= i < |s| ==> IsSpace(s[i])
  {
    if s != [] && IsSpace(s[|s| - 1]) then TrimEnd(s[..|s| - 1]) else s
  }

  /** `s.trim()` */
  function Trim(s: string): (r: string)
    ensures |r| <= |s|
    ensures r == [] || (!IsSpace(r[0]) && !IsSpace(r[|r| - 1]))
  {
    TrimEnd(TrimStart(s))
  }

  /** A string that trims to nothing is exactly a string made only of whitespace:
      this is what `!s.trim()` and `s.trim() === ''` test. */
  predicate IsBlank(s: string) {
    forall i :: 0 <= i < |s| ==> IsSpace(s[i])
  }

  lemma TrimEmptyIffBlank(s: string)
    ensures Trim(s) == "" <==> IsBlank(s)
  {
    var t := TrimStart(s);
    if IsBlank(s) {
      BlankTrimsToEmpty(s);
    }
    if Trim(s) == "" {
      forall i | 0 <= i < |s| ensures IsSpace(s[i]) {
      }
    }
  }

  lemma {:induction false} BlankTrimsToEmpty(s: string)
    requires IsBlank(s)
    ensures TrimStart(s) == ""
  {
    if s != [] {
      BlankTrimsToEmpty(s[1..]);
    }
  }

  /** `s.startsWith(p)` */
  function StartsWith(s: string, p: string): (r: bool)
    ensures r <==> OccursAt(s, p, 0)
    ensures r ==> Contains(s, p)
  {
    if IsPrefix(p, s) then assert OccursAt(s, p, 0); true else false
  }

  /** Decimal text of an integer, as `String(n)` gives for a safe integer. */
  function DecimalText(n: int): (r: string)
    ensures r != ""
    decreases if n < 0 then -n + 1 else n
  {
    if n < 0 then "-" + DecimalText(-n)
    else if n < 10 then [('0' as int + n) as char]
    else DecimalText(n / 10) + [('0' as int + n % 10) as char]
  }
}
