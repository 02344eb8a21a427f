/**
 * String helpers shared by the scheme parsers: the white-space sets of the
 * two host languages, trimming, splitting, ASCII upper-casing and substring
 * search, with the content-preservation facts the parsers rely on.
 */
module Text {

  /** The characters JavaScript's `trim()` and the regex class `\s` treat as white space. */
  predicate IsJsSpace(c: char) {
    var n := c as int;
    n == 0x20 || (0x09 <= n <= 0x0D) || n == 0xA0 || n == 0x1680 || (0x2000 <= n <= 0x200A)
    || n == 0x2028 || n == 0x2029 || n == 0x202F || n == 0x205F || n == 0x3000 || n == 0xFEFF
  }

  /** The characters Python's `str.strip()` treats as white space. */
  predicate IsPySpace(c: char) {
    var n := c as int;
    (0x09 <= n <= 0x0D) || (0x1C <= n <= 0x20) || n == 0x85 || n == 0xA0 || n == 0x1680
    || (0x2000 <= n <= 0x200A) || n == 0x2028 || n == 0x2029 || n == 0x202F || n == 0x205F || n == 0x3000
  }

  /** The separator of `split(' ')` in both languages. */
  predicate IsBlank(c: char) {
    c == ' '
  }

  /** Upper-casing, on the ASCII letters only. */
  function UpperChar(c: char): char {
    if 'a' <= c <= 'z' then (c as int - 32) as char else c
  }

  function Upper(s: string): (r: string)
    ensures |r| == |s|
    ensures forall i :: 0 <= i < |s| ==> r[i] == UpperChar(s[i])
  {
    seq(|s|, i requires 0 <= i < |s| => UpperChar(s[i]))
  }

  /** `String(x).trim().toUpperCase()` / `str(x).strip().upper()`. */
  function Normalized(s: string, ws: char -> bool): (r: string)
    ensures |r| <= |s|
  {
    Upper(Trim(s, ws))
  }

  /** `s` without the characters `drop` selects. */
  function RemoveWhere(s: string, drop: char -> bool): (r: string)
    ensures forall i :: 0 <= i < |r| ==> !drop(r[i])
  {
    if |s| == 0 then ""
    else if drop(s[0]) then RemoveWhere(s[1..], drop)
    else [s[0]] + RemoveWhere(s[1..], drop)
  }

  function TrimStart(s: string, ws: char -> bool): (r: string)
    ensures |r| <= |s| && r == s[|s| - |r|..]
    ensures |r| > 0 ==> !ws(r[0])
    ensures forall i :: 0 <= i < |s| - |r| ==> ws(s[i])
  {
    if |s| > 0 && ws(s[0]) then
      var r := TrimStart(s[1..], ws);
      assert s[1..][|s| - 1 - |r|..] == s[|s| - |r|..];
      assert forall i :: 1 <= i < |s| - |r| ==> s[i] == s[1..][i - 1];
      r
    else s
  }

  function TrimEnd(s: string, ws: char -> bool): (r: string)
    ensures |r| <= |s| && r == s[..|r|]
    ensures |r| > 0 ==> !ws(r[|r| - 1])
    ensures forall i :: |r| <= i < |s| ==> ws(s[i])
  {
    if |s| > 0 && ws(s[|s| - 1]) then
      var r := TrimEnd(s[..|s| - 1], ws);
      assert s[..|s| - 1][..|r|] == s[..|r|];
      r
    else s
  }

  /** `trim()` / `strip()`: white space removed from both ends. */
  function Trim(s: string, ws: char -> bool): (r: string)
    ensures |r| > 0 ==> !ws(r[0]) && !ws(r[|r| - 1])
    ensures |r| <= |s|
  {
    TrimEnd(TrimStart(s, ws), ws)
  }

  /**
   * `s.split(sep)` where every character `isSep` selects separates two
   * parts: the parts in order, empty ones included.
   */
  function Split(s: string, isSep: char -> bool): (parts: seq<string>)
    ensures |parts| >= 1
    ensures forall i, j :: 0 <= i < |parts| && 0 <= j < |parts[i]| ==> !isSep(parts[i][j])
  {
    if |s| == 0 then [""]
    else
      var rest := Split(s[1..], isSep);
      if isSep(s[0]) then [""] + rest
      else [[s[0]] + rest[0]] + rest[1..]
  }

  /** `parts.join(sep)`. */
  function Join(parts: seq<string>, sep: char): string {
    if |parts| == 0 then ""
    else if |parts| == 1 then parts[0]
    else parts[0] + [sep] + Join(parts[1..], sep)
  }

  /** All parts, concatenated. */
  function Concat(parts: seq<string>): string {
    if |parts| == 0 then "" else parts[0] + Concat(parts[1..])
  }

  /** `filter(Boolean)` on a list of strings: the empty ones dropped. */
  function NonEmpty(parts: seq<string>): (r: seq<string>)
    ensures |r| <= |parts|
    ensures forall i :: 0 <= i < |r| ==> |r[i]| > 0
    ensures forall i :: 0 <= i < |r| ==> r[i] in parts
  {
    if |parts| == 0 then []
    else if |parts[0]| == 0 then NonEmpty(parts[1..])
    else [parts[0]] + NonEmpty(parts[1..])
  }

  /** `map((p) => p.trim())`. */
  function TrimAll(parts: seq<string>, ws: char -> bool): (r: seq<string>)
    ensures |r| == |parts|
  {
    if |parts| == 0 then [] else [Trim(parts[0], ws)] + TrimAll(parts[1..], ws)
  }

  /** JavaScript's `s.includes(sub)` and Python's `sub in s`: substring search. */
  predicate Includes(s: string, sub: string)
    decreases |s|
  {
    |sub| <= |s| && (s[..|sub|] == sub || (|s| > 0 && Includes(s[1..], sub)))
  }

  /** Splitting on single blanks and joining with a blank gives the text back. */
  lemma {:induction false} JoinSplit(s: string)
    ensures Join(Split(s, IsBlank), ' ') == s
  {
    if |s| > 0 {
      JoinSplit(s[1..]);
      var rest := Split(s[1..], IsBlank);
      if !IsBlank(s[0]) {
        if |rest| == 1 {
          assert Split(s, IsBlank) == [[s[0]] + rest[0]];
        } else {
          assert Split(s, IsBlank)[1..] == rest[1..];
          assert Join(rest, ' ') == rest[0] + [' '] + Join(rest[1..], ' ');
        }
      } else {
        assert Split(s, IsBlank) == [""] + rest;
        assert Split(s, IsBlank)[1..] == rest;
      }
    }
  }

  /** For a one-character needle, substring search is membership. */
  lemma {:induction false} IncludesChar(s: string, c: char)
    ensures Includes(s, [c]) <==> c in s
  {
    if |s| > 0 {
      IncludesChar(s[1..], c);
      assert s == [s[0]] + s[1..];
    }
  }

  lemma {:induction false} RemoveWhereAppend(a: string, b: string, drop: char -> bool)
    ensures RemoveWhere(a + b, drop) == RemoveWhere(a, drop) + RemoveWhere(b, drop)
  {
    if |a| > 0 {
      assert (a + b)[1..] == a[1..] + b;
      RemoveWhereAppend(a[1..], b, drop);
    } else {
      assert a + b == b;
    }
  }

  /** The parts of a split hold exactly the characters that are not separators. */
  lemma {:induction false} ConcatSplit(s: string, isSep: char -> bool)
    ensures Concat(Split(s, isSep)) == RemoveWhere(s, isSep)
  {
    if |s| > 0 {
      ConcatSplit(s[1..], isSep);
      var rest := Split(s[1..], isSep);
      if isSep(s[0]) {
        assert Split(s, isSep)[1..] == rest;
      } else {
        var parts := Split(s, isSep);
        assert parts[1..] == rest[1..];
        assert Concat(rest) == rest[0] + Concat(rest[1..]);
        assert Concat(parts) == [s[0]] + rest[0] + Concat(rest[1..]);
      }
    }
  }

  lemma {:induction false} RemoveTrimStart(s: string, ws: char -> bool)
    ensures RemoveWhere(TrimStart(s, ws), ws) == RemoveWhere(s, ws)
  {
    if |s| > 0 && ws(s[0]) {
      RemoveTrimStart(s[1..], ws);
    }
  }

  lemma {:induction false} RemoveTrimEnd(s: string, ws: char -> bool)
    ensures RemoveWhere(TrimEnd(s, ws), ws) == RemoveWhere(s, ws)
  {
    if |s| > 0 && ws(s[|s| - 1]) {
      var init := s[..|s| - 1];
      RemoveTrimEnd(init, ws);
      assert s == init + [s[|s| - 1]];
      RemoveWhereAppend(init, [s[|s| - 1]], ws);
      assert RemoveWhere([s[|s| - 1]], ws) == "";
    }
  }

  /** Trimming removes only white space. */
  lemma RemoveTrim(s: string, ws: char -> bool)
    ensures RemoveWhere(Trim(s, ws), ws) == RemoveWhere(s, ws)
  {
    RemoveTrimStart(s, ws);
    RemoveTrimEnd(TrimStart(s, ws), ws);
  }

  lemma {:induction false} RemoveConcat(parts: seq<string>, drop: char -> bool)
    ensures RemoveWhere(Concat(parts), drop) == RemoveWhere(Concat(TrimAll(parts, drop)), drop)
  {
    if |parts| > 0 {
      RemoveConcat(parts[1..], drop);
      RemoveWhereAppend(parts[0], Concat(parts[1..]), drop);
      RemoveWhereAppend(Trim(parts[0], drop), Concat(TrimAll(parts[1..], drop)), drop);
      RemoveTrim(parts[0], drop);
    }
  }

  lemma {:induction false} ConcatNonEmpty(parts: seq<string>)
    ensures Concat(NonEmpty(parts)) == Concat(parts)
  {
    if |parts| > 0 {
      ConcatNonEmpty(parts[1..]);
    }
  }

  /** Removing blanks and then all JavaScript white space removes all JavaScript white space. */
  lemma {:induction false} RemoveBlankThenSpace(s: string)
    ensures RemoveWhere(RemoveWhere(s, IsBlank), IsJsSpace) == RemoveWhere(s, IsJsSpace)
  {
    if |s| > 0 {
      RemoveBlankThenSpace(s[1..]);
    }
  }

  /** Removing white space twice is removing it once. */
  lemma {:induction false} RemoveIdempotent(s: string, drop: char -> bool)
    ensures RemoveWhere(RemoveWhere(s, drop), drop) == RemoveWhere(s, drop)
  {
    if |s| > 0 {
      RemoveIdempotent(s[1..], drop);
    }
  }

  /** Upper-casing twice is upper-casing once. */
  lemma UpperIdempotent(s: string)
    ensures Upper(Upper(s)) == Upper(s)
  {
  }

  /** Upper-casing never turns a non-blank character into white space of either language. */
  lemma UpperKeepsInk(c: char)
    ensures !IsJsSpace(c) ==> !IsJsSpace(UpperChar(c))
    ensures !IsPySpace(c) ==> !IsPySpace(UpperChar(c))
  {
  }

  /** A string with no white space at either end trims to itself. */
  lemma TrimClean(s: string, ws: char -> bool)
    requires |s| > 0 ==> !ws(s[0]) && !ws(s[|s| - 1])
    ensures Trim(s, ws) == s
  {
  }
}
