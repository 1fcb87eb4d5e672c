/**
 * The JavaScript string primitives the portal's handlers are built from,
 * with JavaScript's semantics: `split` on a one-character separator, `join`,
 * `trim`, `indexOf`/`lastIndexOf`, `includes`, global single-character
 * `replace`, ASCII case mapping and the decimal rendering of integers.
 * Regular-expression classes are ASCII-only (`\w`, `\d`), as in JavaScript
 * without the `u` flag.
 */
module JsText {

  // ---------------------------------------------------------------------------
  // Character classes

  predicate IsAsciiDigit(c: char) { '0' <= c <= '9' }
  predicate IsAsciiUpper(c: char) { 'A' <= c <= 'Z' }
  predicate IsAsciiLower(c: char) { 'a' <= c <= 'z' }

  /** The regular-expression class `\w`, which is `[A-Za-z0-9_]`. */
  predicate IsWordChar(c: char)
  {
    IsAsciiUpper(c) || IsAsciiLower(c) || IsAsciiDigit(c) || c == '_'
  }

  /** The class `[a-f\d]` under the case-insensitive flag. */
  predicate IsHexDigit(c: char)
  {
    IsAsciiDigit(c) || 'a' <= c <= 'f' || 'A' <= c <= 'F'
  }

  /** The characters `String.prototype.trim` removes: WhiteSpace and LineTerminator. */
  predicate IsWhitespace(c: char)
  {
    var n := c as int;
    n == 0x09 || n == 0x0A || n == 0x0B || n == 0x0C || n == 0x0D || n == 0x20
    || n == 0xA0 || n == 0x1680 || (0x2000 <= n <= 0x200A)
    || n == 0x2028 || n == 0x2029 || n == 0x202F || n == 0x205F
    || n == 0x3000 || n == 0xFEFF
  }

  // ---------------------------------------------------------------------------
  // Case mapping (ASCII letters only)

  function UpperChar(c: char): (r: char)
    ensures IsAsciiLower(c) ==> IsAsciiUpper(r) && r as int == c as int - 32
    ensures !IsAsciiLower(c) ==> r == c
  {
    if IsAsciiLower(c) then (c as int - 32) as char else c
  }

  function LowerChar(c: char): (r: char)
    ensures IsAsciiUpper(c) ==> IsAsciiLower(r) && r as int == c as int + 32
    ensures !IsAsciiUpper(c) ==> r == c
  {
    if IsAsciiUpper(c) then (c as int + 32) as char else c
  }

  function ToUpper(s: string): (r: string)
    ensures |r| == |s|
  {
    seq(|s|, i requires 0 <= i < |s| => UpperChar(s[i]))
  }

  function ToLower(s: string): (r: string)
    ensures |r| == |s|
  {
    seq(|s|, i requires 0 <= i < |s| => LowerChar(s[i]))
  }

  /** Lower-casing forgets exactly the case of ASCII letters. */
  lemma LowerUpperChar(c: char)
    ensures LowerChar(UpperChar(c)) == LowerChar(c)
    ensures UpperChar(UpperChar(c)) == UpperChar(c)
  {
  }

  // ---------------------------------------------------------------------------
  // Searching

  /** `s.indexOf(c)`: the first position of `c`, or -1. */
  function IndexOf(s: string, c: char): (i: int)
    ensures -1 <= i < |s|
    ensures i == -1 <==> c !in s
    ensures 0 <= i ==> s[i] == c && c !in s[..i]
  {
    if |s| == 0 then -1
    else if s[0] == c then 0
    else
      var j := IndexOf(s[1..], c);
      if j < 0 then -1 else j + 1
  }

  /** `s.lastIndexOf(c)`: the last position of `c`, or -1. */
  function LastIndexOf(s: string, c: char): (i: int)
    ensures -1 <= i < |s|
    ensures i == -1 <==> c !in s
    ensures 0 <= i ==> s[i] == c && c !in s[i + 1..]
  {
    if |s| == 0 then -1
    else if s[|s| - 1] == c then |s| - 1
    else LastIndexOf(s[..|s| - 1], c)
  }

  lemma {:induction false} IndexOfAfterFreePrefix(x: string, c: char, w: string)
    requires c !in x
    ensures IndexOf(x + [c] + w, c) == |x|
  {
    var s := x + [c] + w;
    assert s[|x|] == c;
  }

  /** `s.includes(sub)`: `sub` occurs in `s` at some position. */
  predicate Includes(s: string, sub: string)
  {
    exists i | 0 <= i <= |s| - |sub| :: OccursAt(s, sub, i)
  }

  predicate OccursAt(s: string, sub: string, i: nat)
  {
    i + |sub| <= |s| && s[i..i + |sub|] == sub
  }

  // ---------------------------------------------------------------------------
  // split and join

  /**
   * `s.split(sep)` for a one-character separator: the maximal pieces between
   * separators, always at least one (`"".split(",")` is `[""]`).
   */
  function Split(s: string, sep: char): (parts: seq<string>)
    ensures |parts| >= 1
    ensures forall k :: 0 <= k < |parts| ==> sep !in parts[k]
    decreases |s|
  {
    var i := IndexOf(s, sep);
    if i < 0 then [s] else [s[..i]] + Split(s[i + 1..], sep)
  }

  /** A character absent from the input is absent from every piece of its split. */
  lemma {:induction false} SplitKeepsAbsent(s: string, sep: char, c: char)
    ensures c !in s ==> forall k :: 0 <= k < |Split(s, sep)| ==> c !in Split(s, sep)[k]
    decreases |s|
  {
    var i := IndexOf(s, sep);
    if i >= 0 && c !in s {
      SplitKeepsAbsent(s[i + 1..], sep, c);
      assert c !in s[..i];
    }
  }

  /** The first piece of a split is the text before the first separator. */
  lemma SplitFirst(s: string, sep: char)
    ensures sep !in s ==> Split(s, sep)[0] == s
    ensures sep in s ==> Split(s, sep)[0] == s[..IndexOf(s, sep)]
  {
  }

  /** `parts.pop()` on a non-empty list, as a value. */
  function Last(parts: seq<string>): string
    requires |parts| >= 1
  {
    parts[|parts| - 1]
  }

  /** The last piece of a split is the text after the last separator. */
  lemma SplitLast(s: string, sep: char)
    ensures sep !in s ==> Last(Split(s, sep)) == s
    ensures sep in s ==> Last(Split(s, sep)) == s[LastIndexOf(s, sep) + 1..]
  {
    var r := Last(Split(s, sep));
    SplitLastSuffix(s, sep);
    if sep in s {
      LastIndexOfUnique(s, sep, |s| - |r| - 1);
    }
  }

  /** The last piece of a split is a suffix without separator, preceded by one when there is any. */
  lemma {:induction false} SplitLastSuffix(s: string, sep: char)
    ensures IsLastPiece(s, sep, Last(Split(s, sep)))
    decreases |s|
  {
    var i := IndexOf(s, sep);
    if i >= 0 {
      var rest := s[i + 1..];
      SplitLastSuffix(rest, sep);
      SplitLastStep(s, sep, i);
      SuffixStep(s, sep, i, rest, Last(Split(rest, sep)));
    } else {
      assert Split(s, sep) == [s];
    }
  }

  /** `r` is the suffix of `s` after its last `sep`, or all of `s` when it has none. */
  predicate IsLastPiece(s: string, sep: char, r: string)
  {
    && |r| <= |s| && s[|s| - |r|..] == r
    && (sep !in s ==> r == s)
    && (sep in s ==> |r| < |s| && s[|s| - |r| - 1] == sep)
  }

  lemma SuffixStep(s: string, sep: char, i: nat, rest: string, r: string)
    requires i < |s| && s[i] == sep && rest == s[i + 1..]
    requires IsLastPiece(rest, sep, r)
    ensures IsLastPiece(s, sep, r)
  {
    assert s[|s| - |r|..] == rest[|rest| - |r|..];
    if sep !in rest {
      assert |s| - |r| - 1 == i;
    } else {
      assert s[|s| - |r| - 1] == rest[|rest| - |r| - 1];
    }
  }

  lemma SplitLastStep(s: string, sep: char, i: int)
    requires i == IndexOf(s, sep) && i >= 0
    ensures Last(Split(s, sep)) == Last(Split(s[i + 1..], sep))
  {
    var tail := Split(s[i + 1..], sep);
    var parts := Split(s, sep);
    assert parts == [s[..i]] + tail;
    LastOfCons(s[..i], tail, parts);
  }

  lemma LastOfCons(x: string, tail: seq<string>, parts: seq<string>)
    requires |tail| >= 1 && parts == [x] + tail
    ensures Last(parts) == Last(tail)
  {
  }

  /** A separator with none after it is the last one. */
  lemma LastIndexOfUnique(s: string, c: char, j: nat)
    requires j < |s| && s[j] == c && c !in s[j + 1..]
    ensures LastIndexOf(s, c) == j
  {
    var k := LastIndexOf(s, c);
    forall m | j < m < |s| ensures s[m] != c {
      assert s[m] == s[j + 1..][m - j - 1];
    }
    forall m | k < m < |s| ensures s[m] != c {
      assert s[m] == s[k + 1..][m - k - 1];
    }
  }

  /** `parts.join(sep)`. */
  function Join(parts: seq<string>, sep: string): string
  {
    if |parts| == 0 then ""
    else if |parts| == 1 then parts[0]
    else parts[0] + sep + Join(parts[1..], sep)
  }

  /** Joining the pieces of a split with the separator gives back the string. */
  lemma {:induction false} JoinSplit(s: string, sep: char)
    ensures Join(Split(s, sep), [sep]) == s
    decreases |s|
  {
    var i := IndexOf(s, sep);
    if i >= 0 {
      var rest := Split(s[i + 1..], sep);
      JoinSplit(s[i + 1..], sep);
      JoinCons(s[..i], rest, [sep]);
      SplitAround(s, i);
    }
  }

  lemma JoinCons(first: string, rest: seq<string>, sep: string)
    requires |rest| >= 1
    ensures Join([first] + rest, sep) == first + sep + Join(rest, sep)
  {
    assert ([first] + rest)[1..] == rest;
  }

  lemma SplitAround(s: string, i: nat)
    requires i < |s|
    ensures s == s[..i] + [s[i]] + s[i + 1..]
  {
  }

  /** Splitting a join recovers the pieces when no piece holds the separator. */
  lemma {:induction false} SplitJoin(parts: seq<string>, sep: char)
    requires |parts| >= 1
    requires forall k :: 0 <= k < |parts| ==> sep !in parts[k]
    ensures Split(Join(parts, [sep]), sep) == parts
  {
    if |parts| > 1 {
      var rest := Join(parts[1..], [sep]);
      var s := parts[0] + [sep] + rest;
      IndexOfAfterFreePrefix(parts[0], sep, rest);
      assert s[..|parts[0]|] == parts[0];
      assert s[|parts[0]| + 1..] == rest;
      SplitJoin(parts[1..], sep);
    }
  }

  /** A character absent from every piece and from the separator is absent from the join. */
  lemma {:induction false} NotInJoin(parts: seq<string>, sep: string, c: char)
    requires c !in sep
    requires forall k :: 0 <= k < |parts| ==> c !in parts[k]
    ensures c !in Join(parts, sep)
  {
    if |parts| > 1 {
      NotInJoin(parts[1..], sep, c);
    }
  }

  // ---------------------------------------------------------------------------
  // Global single-character replacement

  /** `s.replace(/x/g, y)` for single characters `x` and `y`. */
  function ReplaceChar(s: string, from: char, to: char): (r: string)
    ensures |r| == |s|
  {
    seq(|s|, i requires 0 <= i < |s| => if s[i] == from then to else s[i])
  }

  /** `s.replace(/x/g, '')`: the characters of `s` other than `x`, in order. */
  function RemoveChar(s: string, x: char): (r: string)
    ensures x !in r
    ensures |r| <= |s|
    ensures forall c :: c in r ==> c in s
    ensures x !in s ==> r == s
  {
    if |s| == 0 then ""
    else (if s[0] == x then "" else [s[0]]) + RemoveChar(s[1..], x)
  }

  /** Deleting a character distributes over concatenation, so the kept characters keep their order. */
  lemma {:induction false} RemoveCharConcat(a: string, b: string, x: char)
    ensures RemoveChar(a + b, x) == RemoveChar(a, x) + RemoveChar(b, x)
    decreases |a|
  {
    if |a| > 0 {
      assert (a + b)[0] == a[0];
      assert (a + b)[1..] == a[1..] + b;
      RemoveCharConcat(a[1..], b, x);
    } else {
      assert a + b == b;
    }
  }

  /** A single character is deleted exactly when it is the one being removed. */
  lemma RemoveCharChar(c: char, x: char)
    ensures RemoveChar([c], x) == if c == x then "" else [c]
  {
    assert [c][1..] == "";
  }

  // ---------------------------------------------------------------------------
  // trim

  function TrimStart(s: string): (r: string)
    ensures |r| <= |s| && r == s[|s| - |r|..]
    ensures r == "" || !IsWhitespace(r[0])
    ensures forall i :: 0 <= i < |s| - |r| ==> IsWhitespace(s[i])
  {
    if |s| > 0 && IsWhitespace(s[0]) then TrimStart(s[1..]) else s
  }

  function TrimEnd(s: string): (r: string)
    ensures |r| <= |s| && r == s[..|r|]
    ensures r == "" || !IsWhitespace(r[|r| - 1])
    ensures forall i :: |r| <= i < |s| ==> IsWhitespace(s[i])
  {
    if |s| > 0 && IsWhitespace(s[|s| - 1]) then TrimEnd(s[..|s| - 1]) else s
  }

  /** `s.trim()`: `s` without its leading and trailing white space. */
  function Trim(s: string): (r: string)
    ensures |r| <= |s|
    ensures r == "" || (!IsWhitespace(r[0]) && !IsWhitespace(r[|r| - 1]))
    ensures forall c :: c in r ==> c in s
    ensures r == "" <==> forall i :: 0 <= i < |s| ==> IsWhitespace(s[i])
  {
    var t := TrimStart(s);
    var r := TrimEnd(t);
    assert forall c :: c in r ==> c in t;
    assert forall c :: c in t ==> c in s;
    r
  }

  /** `trimStart` removes exactly the white-space prefix that ends before the first other character. */
  lemma {:induction false} TrimStartOf(s: string, k: nat)
    requires k <= |s|
    requires forall i :: 0 <= i < k ==> IsWhitespace(s[i])
    requires k == |s| || !IsWhitespace(s[k])
    ensures TrimStart(s) == s[k..]
  {
    if k > 0 {
      TrimStartOf(s[1..], k - 1);
      assert s[1..][k - 1..] == s[k..];
    }
  }

  /** `trimEnd` removes exactly the white-space suffix that starts after the last other character. */
  lemma {:induction false} TrimEndOf(s: string, k: nat)
    requires k <= |s|
    requires forall i :: k <= i < |s| ==> IsWhitespace(s[i])
    requires k == 0 || !IsWhitespace(s[k - 1])
    ensures TrimEnd(s) == s[..k]
    decreases |s|
  {
    if k < |s| {
      var t := s[..|s| - 1];
      TrimEndOf(t, k);
      assert t[..k] == s[..k];
    } else {
      assert s[..k] == s;
    }
  }

  /**
   * `trim` characterised: a core with no white space at either end, padded
   * by white space on both sides, is trimmed back to that core.
   */
  lemma TrimPadded(pre: string, core: string, post: string)
    requires forall i :: 0 <= i < |pre| ==> IsWhitespace(pre[i])
    requires forall i :: 0 <= i < |post| ==> IsWhitespace(post[i])
    requires core == "" || (!IsWhitespace(core[0]) && !IsWhitespace(core[|core| - 1]))
    ensures Trim(pre + core + post) == core
  {
    if core == "" {
      BlankPaddingTrimmed(pre, post);
      assert pre + core + post == pre + post;
    } else {
      CorePaddingTrimmed(pre, core, post);
    }
  }

  lemma BlankPaddingTrimmed(pre: string, post: string)
    requires forall i :: 0 <= i < |pre| ==> IsWhitespace(pre[i])
    requires forall i :: 0 <= i < |post| ==> IsWhitespace(post[i])
    ensures Trim(pre + post) == ""
  {
    var s := pre + post;
    forall i | 0 <= i < |s| ensures IsWhitespace(s[i]) {
      if i < |pre| { assert s[i] == pre[i]; } else { assert s[i] == post[i - |pre|]; }
    }
  }

  lemma CorePaddingTrimmed(pre: string, core: string, post: string)
    requires forall i :: 0 <= i < |pre| ==> IsWhitespace(pre[i])
    requires forall i :: 0 <= i < |post| ==> IsWhitespace(post[i])
    requires core != "" && !IsWhitespace(core[0]) && !IsWhitespace(core[|core| - 1])
    ensures Trim(pre + core + post) == core
  {
    PrefixTrimmed(pre, core + post);
    assert pre + core + post == pre + (core + post);
    SuffixTrimmed(core, post);
    TrimOfParts(pre + core + post);
  }

  lemma PrefixTrimmed(pre: string, rest: string)
    requires forall i :: 0 <= i < |pre| ==> IsWhitespace(pre[i])
    requires rest != "" && !IsWhitespace(rest[0])
    ensures TrimStart(pre + rest) == rest
  {
    var s := pre + rest;
    forall i | 0 <= i < |pre| ensures IsWhitespace(s[i]) {
      assert s[i] == pre[i];
    }
    assert s[|pre|] == rest[0];
    TrimStartOf(s, |pre|);
    assert s[|pre|..] == rest;
  }

  lemma SuffixTrimmed(core: string, post: string)
    requires forall i :: 0 <= i < |post| ==> IsWhitespace(post[i])
    requires core != "" && !IsWhitespace(core[|core| - 1])
    ensures TrimEnd(core + post) == core
  {
    var t := core + post;
    forall i | |core| <= i < |t| ensures IsWhitespace(t[i]) {
      assert t[i] == post[i - |core|];
    }
    assert t[|core| - 1] == core[|core| - 1];
    TrimEndOf(t, |core|);
    assert t[..|core|] == core;
  }

  lemma TrimOfParts(s: string)
    ensures Trim(s) == TrimEnd(TrimStart(s))
  {
  }

  /** A string with no white space at either end is its own trim. */
  lemma TrimNoOp(s: string)
    requires s == "" || (!IsWhitespace(s[0]) && !IsWhitespace(s[|s| - 1]))
    ensures Trim(s) == s
  {
  }

  // ---------------------------------------------------------------------------
  // Decimal rendering of integers (`Number.prototype.toString()`)

  function DigitChar(d: nat): (c: char)
    requires d < 10
    ensures IsAsciiDigit(c)
  {
    ('0' as int + d) as char
  }

  function DecimalString(n: nat): (r: string)
    ensures |r| >= 1
    ensures forall i :: 0 <= i < |r| ==> IsAsciiDigit(r[i])
    decreases n
  {
    if n < 10 then [DigitChar(n)] else DecimalString(n / 10) + [DigitChar(n % 10)]
  }

  function IntString(n: int): (r: string)
    ensures |r| >= 1
    ensures n >= 0 ==> r == DecimalString(n)
    ensures n < 0 ==> r[0] == '-' && r[1..] == DecimalString(-n)
  {
    if n >= 0 then DecimalString(n) else "-" + DecimalString(-n)
  }
}
