/** The string primitives the client relies on: lodash `_.trim`,
    `String.prototype.split` followed by `Array.prototype.pop`, and the numeric
    coercion of a decimal digit string. */
module Strings {

  import opened JsValues

  // ---------------------------------------------------------------- trimming

  /** The characters of JavaScript's `\s` class, which `_.trim` strips. */
  predicate IsWhitespace(c: char)
  {
    || c == ' ' || c == '\t' || c == '\n' || c == '\r'
    || c == '\U{000B}' || c == '\U{000C}' || c == '\U{00A0}' || c == '\U{1680}'
    || ('\U{2000}' <= c <= '\U{200A}')
    || c == '\U{2028}' || c == '\U{2029}' || c == '\U{202F}' || c == '\U{205F}'
    || c == '\U{3000}' || c == '\U{FEFF}'
  }

  predicate AllWhitespace(s: string)
  {
    forall i :: 0 <= i < |s| ==> IsWhitespace(s[i])
  }

  /** The first index at or after `i`, and before `hi`, that does not hold
      whitespace (`hi` when there is none). */
  function SkipWhitespace(s: string, i: nat, hi: nat): (j: nat)
    requires i <= hi <= |s|
    ensures i <= j <= hi
    ensures forall k :: i <= k < j ==> IsWhitespace(s[k])
    ensures j == hi || !IsWhitespace(s[j])
    decreases hi - i
  {
    if i == hi || !IsWhitespace(s[i]) then i else SkipWhitespace(s, i + 1, hi)
  }

  /** The index just past the last character before `j` that is not whitespace
      (0 when there is none). */
  function BackWhitespace(s: string, j: nat): (i: nat)
    requires j <= |s|
    ensures i <= j
    ensures forall k :: i <= k < j ==> IsWhitespace(s[k])
    ensures i == 0 || !IsWhitespace(s[i - 1])
  {
    if j == 0 || !IsWhitespace(s[j - 1]) then j else BackWhitespace(s, j - 1)
  }

  /** lodash `_.trim(s)`: `s` without its leading and trailing whitespace. The
      result is the infix of `s` left when the whitespace runs at both ends are
      removed: it neither starts nor ends with whitespace, and everything before
      and after it is whitespace. */
  function Trim(s: string): (r: string)
    ensures |r| <= |s|
    ensures r == [] || (!IsWhitespace(r[0]) && !IsWhitespace(r[|r| - 1]))
    ensures exists start: nat ::
      && start + |r| <= |s| && s[start..start + |r|] == r
      && AllWhitespace(s[..start]) && AllWhitespace(s[start + |r|..])
  {
    var e := BackWhitespace(s, |s|);
    var b := SkipWhitespace(s, 0, e);
    assert b < e ==> s[b..e][0] == s[b] && s[b..e][e - b - 1] == s[e - 1];
    assert forall k :: 0 <= k < b ==> s[..b][k] == s[k];
    assert forall k :: 0 <= k < |s| - e ==> s[e..][k] == s[e + k];
    assert s[b..b + |s[b..e]|] == s[b..e];
    s[b..e]
  }

  /** Trimming gives the empty string exactly when the input is all whitespace. */
  lemma TrimEmptyIffBlank(s: string)
    ensures Trim(s) == [] <==> AllWhitespace(s)
  {
  }

  // ------------------------------------------------------ splitting and search

  /** `sep` occurs in `s` at position `i`. */
  predicate OccursAt(s: string, sep: string, i: nat)
  {
    i + |sep| <= |s| && s[i..i + |sep|] == sep
  }

  predicate Contains(s: string, sep: string)
  {
    exists i: nat :: i <= |s| && OccursAt(s, sep, i)
  }

  /** `s.indexOf(sep, from)`: the first occurrence at or after `from`. */
  function IndexOf(s: string, sep: string, from: nat): (r: Option<nat>)
    requires |sep| > 0 && from <= |s|
    ensures r.Some? ==> from <= r.value && OccursAt(s, sep, r.value)
    ensures r.Some? ==> forall j: nat :: from <= j < r.value ==> !OccursAt(s, sep, j)
    ensures r.None? ==> forall j: nat :: from <= j ==> !OccursAt(s, sep, j)
    decreases |s| - from
  {
    if from + |sep| > |s| then None
    else if OccursAt(s, sep, from) then Some(from)
    else IndexOf(s, sep, from + 1)
  }

  /** `s.split(sep)` for a non-empty separator: the pieces between the occurrences
      of `sep` found scanning from the left. */
  function Split(s: string, sep: string): (parts: seq<string>)
    requires |sep| > 0
    ensures |parts| >= 1
    decreases |s|
  {
    match IndexOf(s, sep, 0)
    case None => [s]
    case Some(i) => [s[..i]] + Split(s[i + |sep|..], sep)
  }

  /** The last piece of a split ends the input. */
  lemma {:induction false} LastPieceIsSuffix(s: string, sep: string)
    requires |sep| > 0
    ensures var parts := Split(s, sep); IsSuffix(parts[|parts| - 1], s)
    decreases |s|
  {
    match IndexOf(s, sep, 0)
    case None =>
    case Some(i) =>
      var rest := Split(s[i + |sep|..], sep);
      LastPieceIsSuffix(s[i + |sep|..], sep);
      SuffixOfSuffix(rest[|rest| - 1], s, i + |sep|);
      assert Split(s, sep) == [s[..i]] + rest;
  }

  /** `t` ends `s`. */
  predicate IsSuffix(t: string, s: string)
  {
    |t| <= |s| && s[|s| - |t|..] == t
  }

  /** A suffix of a suffix of `s` is a suffix of `s`. */
  lemma SuffixOfSuffix(t: string, s: string, off: nat)
    requires off <= |s| && IsSuffix(t, s[off..])
    ensures IsSuffix(t, s)
  {
    assert s[|s| - |t|..] == s[off..][|s| - off - |t|..];
  }

  /** When `sep` does not start anywhere before `i`, the prefix `s[..i]` does
      not contain it. */
  lemma NoneBefore(s: string, sep: string, i: nat)
    requires |sep| > 0 && i <= |s|
    requires forall j: nat :: j < i ==> !OccursAt(s, sep, j)
    ensures !Contains(s[..i], sep)
  {
    forall j: nat | j <= i
      ensures !OccursAt(s[..i], sep, j)
    {
      if j + |sep| <= i {
        assert !OccursAt(s, sep, j);
        assert s[..i][j..j + |sep|] == s[j..j + |sep|];
      }
    }
  }

  /** No piece of a split contains the separator. */
  lemma {:induction false} SplitPiecesOmitSeparator(s: string, sep: string)
    requires |sep| > 0
    ensures forall k :: 0 <= k < |Split(s, sep)| ==> !Contains(Split(s, sep)[k], sep)
    decreases |s|
  {
    match IndexOf(s, sep, 0)
    case None =>
    case Some(i) =>
      NoneBefore(s, sep, i);
      SplitPiecesOmitSeparator(s[i + |sep|..], sep);
      var parts := Split(s, sep);
      assert parts == [s[..i]] + Split(s[i + |sep|..], sep);
  }

  /** `parts.join(sep)`, the inverse of `Split`. */
  function Join(parts: seq<string>, sep: string): string
    requires |parts| >= 1
  {
    if |parts| == 1 then parts[0] else parts[0] + sep + Join(parts[1..], sep)
  }

  /** Joining the pieces of a split with the same separator gives back the input. */
  lemma {:induction false} SplitJoin(s: string, sep: string)
    requires |sep| > 0
    ensures Join(Split(s, sep), sep) == s
    decreases |s|
  {
    match IndexOf(s, sep, 0)
    case None =>
      assert Split(s, sep) == [s];
    case Some(i) =>
      var rest := s[i + |sep|..];
      var parts := Split(s, sep);
      assert parts == [s[..i]] + Split(rest, sep);
      assert parts[0] == s[..i] && parts[1..] == Split(rest, sep);
      SplitJoin(rest, sep);
      assert Join(parts, sep) == s[..i] + sep + rest;
      assert s[i..i + |sep|] == sep;
      assert s == s[..i] + s[i..i + |sep|] + rest;
  }

  /** `s.split(sep).pop()`: the last piece of the split, a suffix of `s` in
      which `sep` does not occur. */
  function LastPiece(s: string, sep: string): (last: string)
    requires |sep| > 0
    ensures !Contains(last, sep)
  {
    SplitPiecesOmitSeparator(s, sep);
    LastPieceIsSuffix(s, sep);
    var parts := Split(s, sep);
    parts[|parts| - 1]
  }

  /** `s.lastIndexOf(sep)`, searching from the right: an independent reference
      for where the last piece of a split starts. */
  function LastIndexOf(s: string, sep: string): (r: Option<nat>)
    requires |sep| > 0
    ensures r.Some? ==> OccursAt(s, sep, r.value)
    ensures r.Some? ==> forall j: nat :: r.value < j ==> !OccursAt(s, sep, j)
    ensures r.None? ==> !Contains(s, sep)
  {
    if |s| < |sep| then None else LastIndexAtOrBefore(s, sep, |s| - |sep|)
  }

  function LastIndexAtOrBefore(s: string, sep: string, k: nat): (r: Option<nat>)
    requires |sep| > 0 && k + |sep| <= |s|
    requires forall j: nat :: k < j ==> !OccursAt(s, sep, j)
    ensures r.Some? ==> r.value <= k && OccursAt(s, sep, r.value)
    ensures r.Some? ==> forall j: nat :: r.value < j ==> !OccursAt(s, sep, j)
    ensures r.None? ==> forall j: nat :: !OccursAt(s, sep, j)
    decreases k
  {
    if OccursAt(s, sep, k) then Some(k)
    else if k == 0 then None
    else LastIndexAtOrBefore(s, sep, k - 1)
  }

  /** No proper prefix of `sep` is also a suffix of it, so two occurrences of
      `sep` never overlap. */
  predicate Unbordered(sep: string)
  {
    forall d :: 0 < d < |sep| ==> sep[d..] != sep[..|sep| - d]
  }

  /** Two overlapping occurrences of `sep` make a border of `sep`. */
  lemma OverlapIsBorder(s: string, sep: string, i: nat, j: nat)
    requires OccursAt(s, sep, i) && OccursAt(s, sep, j) && i < j < i + |sep|
    ensures sep[j - i..] == sep[..|sep| - (j - i)]
  {
    var d := j - i;
    forall t | 0 <= t < |sep| - d
      ensures sep[d..][t] == sep[..|sep| - d][t]
    {
      assert s[j..j + |sep|][t] == sep[t];
      assert s[i..i + |sep|][d + t] == sep[d + t];
    }
  }

  /** Two occurrences of an unbordered separator are at least `|sep|` apart. */
  lemma NoOverlap(s: string, sep: string, i: nat, j: nat)
    requires Unbordered(sep) && OccursAt(s, sep, i) && OccursAt(s, sep, j)
    requires i < j
    ensures i + |sep| <= j
  {
    if j < i + |sep| {
      OverlapIsBorder(s, sep, i, j);
      assert false;
    }
  }

  /** An occurrence in a suffix of `s` is an occurrence in `s`, shifted. */
  lemma OccursInSuffix(s: string, sep: string, off: nat, j: nat)
    requires off <= |s|
    ensures OccursAt(s[off..], sep, j) <==> OccursAt(s, sep, off + j)
  {
  }

  /** The last occurrence is the one after which `sep` does not occur. */
  lemma LastIndexOfIs(s: string, sep: string, p: nat)
    requires |sep| > 0 && OccursAt(s, sep, p)
    requires forall j: nat :: p < j ==> !OccursAt(s, sep, j)
    ensures LastIndexOf(s, sep) == Some(p)
  {
  }

  /** What follows the last occurrence of `sep` in `s`, or all of `s` when
      `sep` does not occur. */
  function AfterLast(s: string, sep: string): string
    requires |sep| > 0
  {
    match LastIndexOf(s, sep)
    case None => s
    case Some(p) => s[p + |sep|..]
  }

  /** When `sep` is first found at `i` and never again, what follows it is the
      rest of `s`. */
  lemma AfterLastOfOnly(s: string, sep: string, i: nat)
    requires |sep| > 0 && Unbordered(sep) && OccursAt(s, sep, i)
    requires LastIndexOf(s[i + |sep|..], sep).None?
    ensures AfterLast(s, sep) == s[i + |sep|..]
  {
    var n := |sep|;
    var rest := s[i + n..];
    forall j: nat | i < j
      ensures !OccursAt(s, sep, j)
    {
      if OccursAt(s, sep, j) {
        NoOverlap(s, sep, i, j);
        OccursInSuffix(s, sep, i + n, j - (i + n));
      }
    }
    LastIndexOfIs(s, sep, i);
  }

  /** A later occurrence in the rest of `s` is the last occurrence in `s`. */
  lemma AfterLastOfRest(s: string, sep: string, off: nat)
    requires |sep| > 0 && off <= |s|
    requires LastIndexOf(s[off..], sep).Some?
    ensures AfterLast(s, sep) == AfterLast(s[off..], sep)
  {
    var rest := s[off..];
    var q := LastIndexOf(rest, sep).value;
    OccursInSuffix(s, sep, off, q);
    forall j: nat | off + q < j
      ensures !OccursAt(s, sep, j)
    {
      OccursInSuffix(s, sep, off, j - off);
    }
    LastIndexOfIs(s, sep, off + q);
    assert rest[q + |sep|..] == s[off + q + |sep|..];
  }

  /** Past a first occurrence at `i`, the last piece is that of the rest. */
  lemma LastPieceOfRest(s: string, sep: string, i: nat)
    requires |sep| > 0 && IndexOf(s, sep, 0) == Some(i)
    ensures LastPiece(s, sep) == LastPiece(s[i + |sep|..], sep)
  {
    var rest := Split(s[i + |sep|..], sep);
    assert Split(s, sep) == [s[..i]] + rest;
  }

  /** For an unbordered separator, `s.split(sep).pop()` is what follows the last
      occurrence of `sep`, or all of `s` when `sep` does not occur. */
  lemma {:induction false} LastPieceIsAfterLast(s: string, sep: string)
    requires |sep| > 0 && Unbordered(sep)
    ensures LastPiece(s, sep) == AfterLast(s, sep)
    decreases |s|
  {
    match IndexOf(s, sep, 0)
    case None =>
      assert LastPiece(s, sep) == s;
    case Some(i) =>
      var rest := s[i + |sep|..];
      LastPieceIsAfterLast(rest, sep);
      LastPieceOfRest(s, sep, i);
      if LastIndexOf(rest, sep).None? {
        AfterLastOfOnly(s, sep, i);
      } else {
        AfterLastOfRest(s, sep, i + |sep|);
      }
  }

  // ------------------------------------------------------- decimal numbers

  predicate IsDigit(c: char)
  {
    '0' <= c <= '9'
  }

  predicate AllDigits(s: string)
  {
    forall i :: 0 <= i < |s| ==> IsDigit(s[i])
  }

  /** The number a string of decimal digits denotes (`s * 1` in JavaScript);
      the empty string denotes 0. */
  function ParseDecimal(s: string): (n: nat)
    requires AllDigits(s)
    ensures n < Pow10(|s|)
  {
    if s == [] then 0
    else 10 * ParseDecimal(s[..|s| - 1]) + (s[|s| - 1] as int - '0' as int)
  }

  /** `10` to the power `k`. */
  function Pow10(k: nat): (p: nat)
    ensures p >= 1
  {
    if k == 0 then 1 else 10 * Pow10(k - 1)
  }

  /** The decimal notation of `n`, without leading zeros. */
  function FormatDecimal(n: nat): (s: string)
    ensures |s| >= 1 && AllDigits(s)
  {
    var d := ['0' + ((n % 10) as char)];
    if n < 10 then d else FormatDecimal(n / 10) + d
  }

  /** Parsing the notation of `n` gives back `n`. */
  lemma {:induction false} ParseFormat(n: nat)
    ensures ParseDecimal(FormatDecimal(n)) == n
  {
    var s := FormatDecimal(n);
    if n >= 10 {
      ParseFormat(n / 10);
      assert s[..|s| - 1] == FormatDecimal(n / 10);
    }
  }
}
