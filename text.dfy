/** The optional value shared by the other modules: JavaScript's `undefined`
    for a missing object key, a missing header or a missing match. */
module Optional {
  datatype Option<+T> = None | Some(value: T)
}

/** String operations the source takes from JavaScript's `String` prototype:
    `toLowerCase`/`toUpperCase` (restricted to ASCII), `includes`, `split`,
    and the decimal rendering of a whole number used in template strings. */
module Text {
  import opened Optional

  predicate IsUpper(c: char) { 'A' <= c <= 'Z' }
  predicate IsLower(c: char) { 'a' <= c <= 'z' }

  function LowerChar(c: char): char {
    if IsUpper(c) then (c as int + 32) as char else c
  }

  function UpperChar(c: char): char {
    if IsLower(c) then (c as int - 32) as char else c
  }

  /** `s.toLowerCase()` on ASCII letters; every other character is kept. */
  function ToLower(s: string): (r: string)
    ensures |r| == |s|
    ensures forall i :: 0 <= i < |s| ==> r[i] == LowerChar(s[i])
  {
    if s == [] then [] else [LowerChar(s[0])] + ToLower(s[1..])
  }

  /** `s.toUpperCase()` on ASCII letters; every other character is kept. */
  function ToUpper(s: string): (r: string)
    ensures |r| == |s|
    ensures forall i :: 0 <= i < |s| ==> r[i] == UpperChar(s[i])
  {
    if s == [] then [] else [UpperChar(s[0])] + ToUpper(s[1..])
  }

  /** Lower-casing ignores how a letter was cased before: folding to upper
      case first changes nothing about the lower-cased text. */
  lemma LowerOfUpper(s: string)
    ensures ToLower(ToUpper(s)) == ToLower(s)
  {
    var a, b := ToLower(ToUpper(s)), ToLower(s);
    assert |a| == |b|;
    forall i | 0 <= i < |s| ensures a[i] == b[i] {
      assert a[i] == LowerChar(UpperChar(s[i]));
    }
  }

  /** Upper-casing ignores how a letter was cased before. */
  lemma UpperOfLower(s: string)
    ensures ToUpper(ToLower(s)) == ToUpper(s)
  {
    var a, b := ToUpper(ToLower(s)), ToUpper(s);
    assert |a| == |b|;
    forall i | 0 <= i < |s| ensures a[i] == b[i] {
      assert a[i] == UpperChar(LowerChar(s[i]));
    }
  }

  /** Lower-casing twice is lower-casing once. */
  lemma LowerIdempotent(s: string)
    ensures ToLower(ToLower(s)) == ToLower(s)
  {
    var a, b := ToLower(ToLower(s)), ToLower(s);
    forall i | 0 <= i < |s| ensures a[i] == b[i] {
      assert a[i] == LowerChar(LowerChar(s[i]));
    }
  }

  /** Text that has no upper-case ASCII letter is its own lower-case form. */
  lemma ToLowerOfLower(s: string)
    requires forall i :: 0 <= i < |s| ==> !IsUpper(s[i])
    ensures ToLower(s) == s
  {
  }

  /** Text that has no lower-case ASCII letter is its own upper-case form. */
  lemma ToUpperOfUpper(s: string)
    requires forall i :: 0 <= i < |s| ==> !IsLower(s[i])
    ensures ToUpper(s) == s
  {
  }

  /** `k` occurs in `s` starting at position `i`. */
  predicate OccursAt(s: string, k: string, i: int) {
    0 <= i && i + |k| <= |s| && s[i..i + |k|] == k
  }

  /** `s.includes(k)`: `k` is a substring of `s` (not necessarily a word). */
  predicate Contains(s: string, k: string) {
    exists i :: 0 <= i <= |s| - |k| && OccursAt(s, k, i)
  }

  /** Every character of a substring is a character of the text. */
  lemma ContainsOnlyCharsOf(s: string, k: string, c: char)
    requires Contains(s, k) && c in k
    ensures c in s
  {
    var i :| 0 <= i <= |s| - |k| && OccursAt(s, k, i);
    var j :| 0 <= j < |k| && k[j] == c;
    assert s[i + j] == s[i..i + |k|][j];
  }

  /** A keyword with a character the text lacks is not in the text. */
  lemma MissingChar(s: string, k: string, c: char)
    requires c in k && c !in s
    ensures !Contains(s, k)
  {
    if Contains(s, k) { ContainsOnlyCharsOf(s, k, c); }
  }

  /** A text contains a keyword when the keyword is found at a given place. */
  lemma ContainsAt(s: string, k: string, i: int)
    requires OccursAt(s, k, i)
    ensures Contains(s, k)
  {
  }

  /** Dropping the first character moves every occurrence one place left. */
  lemma OccursShift(s: string, k: string)
    requires |s| > 0
    ensures forall j :: 1 <= j ==> (OccursAt(s, k, j) <==> OccursAt(s[1..], k, j - 1))
  {
    forall j | 1 <= j && (OccursAt(s, k, j) || OccursAt(s[1..], k, j - 1))
      ensures OccursAt(s, k, j) && OccursAt(s[1..], k, j - 1)
    {
      assert s[1..][j - 1..j - 1 + |k|] == s[j..j + |k|];
    }
  }

  /** Position of the first occurrence of `sep` in `s` (`s.indexOf(sep)`). */
  function IndexOf(s: string, sep: string): (r: Option<nat>)
    requires |sep| > 0
    ensures r.Some? ==> OccursAt(s, sep, r.value)
    ensures r.Some? ==> forall j :: 0 <= j < r.value ==> !OccursAt(s, sep, j)
    ensures r.None? <==> !Contains(s, sep)
    decreases |s|
  {
    if |s| < |sep| then None
    else if s[..|sep|] == sep then
      assert OccursAt(s, sep, 0);
      Some(0)
    else
      OccursShift(s, sep);
      assert !OccursAt(s, sep, 0);
      match IndexOf(s[1..], sep)
      case None =>
        assert forall j :: 0 <= j ==> !OccursAt(s[1..], sep, j);
        None
      case Some(j) =>
        assert OccursAt(s[1..], sep, (j + 1) - 1);
        Some(j + 1)
  }

  /** The text before the first occurrence of the separator holds none. */
  lemma PieceBeforeFirstFree(s: string, sep: string, i: nat)
    requires |sep| > 0 && IndexOf(s, sep) == Some(i)
    ensures !Contains(s[..i], sep)
  {
    var p := s[..i];
    forall j | 0 <= j <= |p| - |sep| ensures !OccursAt(p, sep, j) {
      assert !OccursAt(s, sep, j);
      assert p[j..j + |sep|] == s[j..j + |sep|];
    }
  }

  /** The decimal digit for a value below ten. */
  function DigitChar(d: nat): char
    requires d < 10
  {
    ('0' as int + d) as char
  }

  /** The decimal rendering of a whole number (`${n}` for an integer). */
  function NatToString(n: nat): (r: string)
    ensures |r| >= 1
    ensures forall i :: 0 <= i < |r| ==> '0' <= r[i] <= '9'
  {
    if n < 10 then [DigitChar(n)] else NatToString(n / 10) + [DigitChar(n % 10)]
  }
}
