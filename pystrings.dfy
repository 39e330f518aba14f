/**
 * The pieces of Python's `str` and `pathlib` behaviour that the backend relies on,
 * written out over `seq<char>`: whitespace stripping, `find`/`in`, `split`/`join`,
 * prefix and suffix tests, ASCII `lower`/`title`, `replace` of one character,
 * decimal formatting of an `int`, string ordering, and `Path.name`/`Path.suffix`.
 */
module PyStrings {

  // ---------------------------------------------------------------------------
  // Whitespace and stripping
  // ---------------------------------------------------------------------------

  /** Python's `str.isspace()` for a single character (Unicode White_Space as CPython sees it). */
  predicate IsSpace(c: char) {
    || c == ' '
    || ('\t' <= c <= '\r')
    || ('\U{1c}' <= c <= '\U{1f}')
    || c == '\U{85}' || c == '\U{a0}' || c == '\U{1680}'
    || ('\U{2000}' <= c <= '\U{200a}')
    || c == '\U{2028}' || c == '\U{2029}' || c == '\U{202f}' || c == '\U{205f}' || c == '\U{3000}'
  }

  predicate AllSpace(s: string) {
    forall i :: 0 <= i < |s| ==> IsSpace(s[i])
  }

  /** `s.lstrip()`: what is left after dropping the leading whitespace. */
  function LStrip(s: string): (r: string)
    ensures |r| <= |s| && r == s[|s| - |r|..]
    ensures AllSpace(s[..|s| - |r|])
    ensures r == [] || !IsSpace(r[0])
  {
    if |s| > 0 && IsSpace(s[0]) then
      var r := LStrip(s[1..]);
      assert s[1..][..|s| - 1 - |r|] == s[1..|s| - |r|];
      r
    else s
  }

  /** `s.rstrip()`: what is left after dropping the trailing whitespace. */
  function RStrip(s: string): (r: string)
    ensures |r| <= |s| && r == s[..|r|]
    ensures AllSpace(s[|r|..])
    ensures r == [] || !IsSpace(r[|r| - 1])
  {
    if |s| > 0 && IsSpace(s[|s| - 1]) then
      var r := RStrip(s[..|s| - 1]);
      assert s[..|s| - 1][|r|..] + [s[|s| - 1]] == s[|r|..];
      r
    else s
  }

  /** `s.strip()`: no whitespace at either end of the result. */
  function Strip(s: string): (r: string)
    ensures |r| <= |s|
    ensures r == [] || (!IsSpace(r[0]) && !IsSpace(r[|r| - 1]))
  {
    RStrip(LStrip(s))
  }

  /** Text with no whitespace at its ends is left alone by `strip`. */
  lemma StripTrimmed(s: string)
    requires s == [] || (!IsSpace(s[0]) && !IsSpace(s[|s| - 1]))
    ensures Strip(s) == s
  {
  }

  /** `strip` is idempotent. */
  lemma StripIdempotent(s: string)
    ensures Strip(Strip(s)) == Strip(s)
  {
    StripTrimmed(Strip(s));
  }

  // ---------------------------------------------------------------------------
  // Searching
  // ---------------------------------------------------------------------------

  /** `sub` occurs in `s` starting at index `k`. */
  predicate OccursAt(s: string, sub: string, k: int) {
    0 <= k && k + |sub| <= |s| && s[k..k + |sub|] == sub
  }

  /** `s.find(sub, start)`: the least index at or after `start` where `sub` occurs, or -1. */
  function FindFrom(s: string, sub: string, start: nat): (r: int)
    decreases |s| - start
    ensures r == -1 || (start <= r && OccursAt(s, sub, r))
    ensures r == -1 ==> forall k :: start <= k ==> !OccursAt(s, sub, k)
    ensures r >= 0 ==> forall k :: start <= k < r ==> !OccursAt(s, sub, k)
  {
    if start + |sub| > |s| then -1
    else if s[start..start + |sub|] == sub then start
    else FindFrom(s, sub, start + 1)
  }

  /** `sub in s`. */
  function Contains(s: string, sub: string): (b: bool)
    ensures b <==> exists k :: OccursAt(s, sub, k)
  {
    FindFrom(s, sub, 0) >= 0
  }

  /** `s.startswith(p)`. */
  predicate StartsWith(s: string, p: string) {
    |p| <= |s| && s[..|p|] == p
  }

  /** `s.endswith(p)`. */
  predicate EndsWith(s: string, p: string) {
    |p| <= |s| && s[|s| - |p|..] == p
  }

  /** A slice of a slice is a slice of the original. */
  lemma SliceOfSlice<T>(s: seq<T>, i: nat, j: nat, k: nat, n: nat)
    requires i <= j <= |s| && k + n <= j - i
    ensures s[i..j][k..k + n] == s[i + k..i + k + n]
  {
    var a, b := s[i..j][k..k + n], s[i + k..i + k + n];
    forall x | 0 <= x < n ensures a[x] == b[x] {
      assert a[x] == s[i..j][k + x];
    }
  }

  /** A slice of a string free of `sub` is itself free of `sub`. */
  lemma SliceLacks(s: string, sub: string, i: nat, j: nat)
    requires i <= j <= |s|
    requires !Contains(s, sub)
    ensures !Contains(s[i..j], sub)
  {
    var t := s[i..j];
    forall k | 0 <= k && k + |sub| <= |t| ensures !OccursAt(t, sub, k) {
      SliceOfSlice(s, i, j, k, |sub|);
      assert !OccursAt(s, sub, i + k);
    }
  }

  /** Stripping cannot create an occurrence of `sub`. */
  lemma StripLacks(s: string, sub: string)
    requires !Contains(s, sub)
    ensures !Contains(Strip(s), sub)
  {
    var l := LStrip(s);
    var r := RStrip(l);
    assert l == s[|s| - |l|..|s|];
    SliceLacks(s, sub, |s| - |l|, |s|);
    assert r == l[0..|r|];
    SliceLacks(l, sub, 0, |r|);
  }

  // ---------------------------------------------------------------------------
  // split and join
  // ---------------------------------------------------------------------------

  /** `s.split(sep)` for a non-empty separator (Python raises ValueError on an empty one). */
  function Split(s: string, sep: string): (parts: seq<string>)
    requires |sep| > 0
    decreases |s|
    ensures |parts| >= 1
  {
    var i := FindFrom(s, sep, 0);
    if i < 0 then [s] else [s[..i]] + Split(s[i + |sep|..], sep)
  }

  /** `sep.join(parts)`. */
  function Join(parts: seq<string>, sep: string): string {
    if |parts| == 0 then ""
    else if |parts| == 1 then parts[0]
    else parts[0] + sep + Join(parts[1..], sep)
  }

  /** Joining the pieces of a split with the same separator gives back the original text. */
  lemma {:induction false} SplitJoin(s: string, sep: string)
    requires |sep| > 0
    ensures Join(Split(s, sep), sep) == s
    decreases |s|
  {
    var i := FindFrom(s, sep, 0);
    if i >= 0 {
      var rest := s[i + |sep|..];
      var tail := Split(rest, sep);
      SplitJoin(rest, sep);
      var parts := [s[..i]] + tail;
      assert Split(s, sep) == parts;
      assert parts[1..] == tail;
      assert Join(parts, sep) == s[..i] + sep + Join(tail, sep);
      assert s == s[..i] + s[i..i + |sep|] + rest;
    }
  }

  /** No piece of a split contains the separator. */
  lemma {:induction false} SplitPiecesLackSeparator(s: string, sep: string)
    requires |sep| > 0
    ensures forall p :: p in Split(s, sep) ==> !Contains(p, sep)
    decreases |s|
  {
    var i := FindFrom(s, sep, 0);
    if i < 0 {
      assert Split(s, sep) == [s];
    } else {
      SplitPiecesLackSeparator(s[i + |sep|..], sep);
      forall k | 0 <= k && k + |sep| <= i ensures !OccursAt(s[..i], sep, k) {
        assert s[..i][k..k + |sep|] == s[k..k + |sep|];
        assert !OccursAt(s, sep, k);
      }
      assert !Contains(s[..i], sep);
    }
  }

  /** The first two pieces of a split of text that starts with the separator. */
  lemma SplitAfterLeadingSeparator(s: string, sep: string)
    requires |sep| > 0 && StartsWith(s, sep)
    ensures var parts := Split(s, sep);
            && |parts| >= 2
            && parts[0] == ""
            && parts[1] == Split(s[|sep|..], sep)[0]
  {
    assert OccursAt(s, sep, 0);
  }

  /** The first piece of a split: everything before the first separator, or all of it. */
  lemma SplitFirstPiece(s: string, sep: string)
    requires |sep| > 0
    ensures var p := Split(s, sep)[0];
            && StartsWith(s, p)
            && !Contains(p, sep)
            && (p == s || OccursAt(s, sep, |p|))
  {
    SplitPiecesLackSeparator(s, sep);
    assert Split(s, sep)[0] in Split(s, sep);
  }

  /** A one-character separator that is not part of `m` cannot create an occurrence of `m`. */
  lemma {:induction false} JoinLacks(parts: seq<string>, c: char, m: string)
    requires |m| > 0 && c !in m
    requires forall i :: 0 <= i < |parts| ==> !Contains(parts[i], m)
    ensures !Contains(Join(parts, [c]), m)
  {
    if |parts| == 1 {
      assert !Contains(parts[0], m);
    } else if |parts| > 1 {
      var p, rest := parts[0], Join(parts[1..], [c]);
      JoinLacks(parts[1..], c, m);
      assert !Contains(p, m);
      var s := p + [c] + rest;
      assert Join(parts, [c]) == s;
      forall k | 0 <= k && k + |m| <= |s| ensures !OccursAt(s, m, k) {
        if k + |m| <= |p| {
          assert s[k..k + |m|] == p[k..k + |m|];
          assert !OccursAt(p, m, k);
        } else if k > |p| {
          assert s[k..k + |m|] == rest[k - |p| - 1..k - |p| - 1 + |m|];
          assert !OccursAt(rest, m, k - |p| - 1);
        } else {
          assert s[k..k + |m|][|p| - k] == c;
        }
      }
    }
  }

  // ---------------------------------------------------------------------------
  // Case mapping (ASCII letters) and replace
  // ---------------------------------------------------------------------------

  predicate IsAsciiUpper(c: char) { 'A' <= c <= 'Z' }
  predicate IsAsciiLower(c: char) { 'a' <= c <= 'z' }
  predicate IsAsciiLetter(c: char) { IsAsciiUpper(c) || IsAsciiLower(c) }

  function LowerChar(c: char): (d: char)
    ensures IsAsciiUpper(c) ==> IsAsciiLower(d) && d as int == c as int + 32
    ensures !IsAsciiUpper(c) ==> d == c
  {
    if IsAsciiUpper(c) then (c as int + 32) as char else c
  }

  function UpperChar(c: char): (d: char)
    ensures IsAsciiLower(c) ==> IsAsciiUpper(d) && d as int == c as int - 32
    ensures !IsAsciiLower(c) ==> d == c
  {
    if IsAsciiLower(c) then (c as int - 32) as char else c
  }

  /** `s.lower()`: every ASCII capital becomes small, every other character stays. */
  function Lower(s: string): (r: string)
    ensures |r| == |s|
    ensures forall i :: 0 <= i < |s| ==> r[i] == LowerChar(s[i])
    ensures forall i :: 0 <= i < |r| ==> !IsAsciiUpper(r[i])
    ensures (forall i :: 0 <= i < |s| ==> !IsAsciiUpper(s[i])) ==> r == s
  {
    seq(|s|, i requires 0 <= i < |s| => LowerChar(s[i]))
  }

  /** Lowering twice is lowering once, and two strings differing only in ASCII case lower alike. */
  lemma LowerIdempotent(s: string, t: string)
    requires |s| == |t| && forall i :: 0 <= i < |s| ==> LowerChar(s[i]) == LowerChar(t[i])
    ensures Lower(Lower(s)) == Lower(s)
    ensures Lower(s) == Lower(t)
  {
  }

  /**
   * `s.title()`, scanning with the flag "the previous character was cased": a cased
   * character is lowered after a cased one and capitalised after anything else.
   */
  function TitleFrom(s: string, previousCased: bool): string
    decreases |s|
  {
    if |s| == 0 then ""
    else
      [if previousCased then LowerChar(s[0]) else UpperChar(s[0])]
      + TitleFrom(s[1..], IsAsciiLetter(s[0]))
  }

  function Title(s: string): string {
    TitleFrom(s, false)
  }

  /** What a title-cased character is, given the character before it. */
  function TitleCharAt(s: string, i: nat): char
    requires i < |s|
  {
    if i > 0 && IsAsciiLetter(s[i - 1]) then LowerChar(s[i]) else UpperChar(s[i])
  }

  lemma {:induction false} TitleFromAt(s: string, previousCased: bool, i: nat)
    requires i < |s|
    ensures |TitleFrom(s, previousCased)| == |s|
    ensures TitleFrom(s, previousCased)[i] ==
              if i == 0 then (if previousCased then LowerChar(s[0]) else UpperChar(s[0]))
              else TitleCharAt(s, i)
    decreases |s|
  {
    if |s| > 1 {
      TitleFromAt(s[1..], IsAsciiLetter(s[0]), if i == 0 then 0 else i - 1);
    } else {
      assert TitleFrom(s[1..], IsAsciiLetter(s[0])) == "";
    }
  }

  /**
   * `str.title` character by character: any character that is not an ASCII letter
   * starts a new word, whose first letter is capitalised and whose other letters are lowered.
   */
  lemma TitleAt(s: string)
    ensures |Title(s)| == |s|
    ensures forall i :: 0 <= i < |s| ==> Title(s)[i] == TitleCharAt(s, i)
  {
    if |s| == 0 {
    } else {
      TitleFromAt(s, false, 0);
      forall i | 0 <= i < |s| ensures Title(s)[i] == TitleCharAt(s, i) {
        TitleFromAt(s, false, i);
      }
    }
  }

  /** `s.replace(a, b)` for one-character `a` and `b`. */
  function ReplaceChar(s: string, a: char, b: char): (r: string)
    ensures |r| == |s|
    ensures forall i :: 0 <= i < |s| ==> r[i] == if s[i] == a then b else s[i]
    ensures a != b ==> a !in r
  {
    seq(|s|, i requires 0 <= i < |s| => if s[i] == a then b else s[i])
  }

  // ---------------------------------------------------------------------------
  // Decimal formatting
  // ---------------------------------------------------------------------------

  function DigitChar(d: nat): char
    requires d < 10
  {
    ('0' as int + d) as char
  }

  /** The value of a string of decimal digits. */
  function DigitsValue(s: string): int
  {
    if |s| == 0 then 0 else DigitsValue(s[..|s| - 1]) * 10 + (s[|s| - 1] as int - '0' as int)
  }

  /** `str(n)` for a natural number `n`: decimal digits, no leading zero. */
  function NatToString(n: nat): (r: string)
    ensures |r| > 0
    ensures forall i :: 0 <= i < |r| ==> '0' <= r[i] <= '9'
    ensures r[0] == '0' ==> n == 0
    ensures DigitsValue(r) == n
  {
    if n < 10 then [DigitChar(n)]
    else
      var r := NatToString(n / 10) + [DigitChar(n % 10)];
      assert r[..|r| - 1] == NatToString(n / 10);
      r
  }

  // ---------------------------------------------------------------------------
  // String ordering: Python's `<` on `str` compares code points lexicographically
  // ---------------------------------------------------------------------------

  predicate LexLt(a: string, b: string)
    decreases |a|
  {
    if |a| == 0 then |b| > 0
    else if |b| == 0 then false
    else if a[0] != b[0] then a[0] < b[0]
    else LexLt(a[1..], b[1..])
  }

  lemma {:induction false} LexLtIrreflexive(a: string)
    ensures !LexLt(a, a)
    decreases |a|
  {
    if |a| > 0 { LexLtIrreflexive(a[1..]); }
  }

  lemma {:induction false} LexLtTransitive(a: string, b: string, c: string)
    requires LexLt(a, b) && LexLt(b, c)
    ensures LexLt(a, c)
    decreases |a|
  {
    if |a| > 0 && a[0] == b[0] && b[0] == c[0] {
      LexLtTransitive(a[1..], b[1..], c[1..]);
    }
  }

  lemma {:induction false} LexLtTrichotomy(a: string, b: string)
    ensures LexLt(a, b) || a == b || LexLt(b, a)
    decreases |a|
  {
    if |a| > 0 && |b| > 0 && a[0] == b[0] {
      LexLtTrichotomy(a[1..], b[1..]);
      if a[1..] == b[1..] {
        assert a == [a[0]] + a[1..] && b == [b[0]] + b[1..];
      }
    }
  }

  // ---------------------------------------------------------------------------
  // pathlib: PurePosixPath.name and .suffix
  // ---------------------------------------------------------------------------

  /** The last `/`-separated component that is neither empty nor `.`, or "" if there is none. */
  function LastComponent(parts: seq<string>): (r: string)
    ensures r == "" || r in parts
    ensures r != "."
    ensures r == "" <==> forall i :: 0 <= i < |parts| ==> parts[i] == "" || parts[i] == "."
    ensures r != "" ==> r == parts[LastComponentIndex(parts)]
  {
    if |parts| == 0 then ""
    else if parts[|parts| - 1] != "" && parts[|parts| - 1] != "." then parts[|parts| - 1]
    else LastComponent(parts[..|parts| - 1])
  }

  /** Index of the last element that is neither empty nor `.`, or -1 when there is none. */
  function LastComponentIndex(parts: seq<string>): (r: int)
    ensures -1 <= r < |parts|
    ensures r >= 0 ==> parts[r] != "" && parts[r] != "."
    ensures forall j :: r < j < |parts| ==> parts[j] == "" || parts[j] == "."
  {
    if |parts| == 0 then -1
    else if parts[|parts| - 1] != "" && parts[|parts| - 1] != "." then |parts| - 1
    else LastComponentIndex(parts[..|parts| - 1])
  }

  /** `Path(p).name`: the final component of the path. */
  function PathName(p: string): (r: string)
    ensures '/' !in r
  {
    var parts := Split(p, "/");
    SplitPiecesLackSeparator(p, "/");
    var r := LastComponent(parts);
    assert r != "" ==> !Contains(r, "/");
    assert '/' in r ==> OccursAt(r, "/", IndexOf(r, '/'));
    r
  }

  /**
   * `Path(p).name` is the last `/`-separated segment that is neither empty nor `.`:
   * every later segment is empty or `.`, and the name is "" exactly when no segment qualifies.
   */
  lemma PathNameIsLastSegment(p: string)
    ensures var parts := Split(p, "/");
            var r := PathName(p);
            && (r == "" <==> forall i :: 0 <= i < |parts| ==> parts[i] == "" || parts[i] == ".")
            && (r != "" ==>
                  var k := LastComponentIndex(parts);
                  && 0 <= k < |parts| && parts[k] == r
                  && forall j :: k < j < |parts| ==> parts[j] == "" || parts[j] == ".")
  {
  }

  /** Index of the first occurrence of `c` (used only to exhibit an occurrence). */
  function IndexOf(s: string, c: char): (r: nat)
    requires c in s
    ensures r < |s| && s[r] == c
  {
    if s[0] == c then 0 else 1 + IndexOf(s[1..], c)
  }

  /** `s.rfind(c)`: the last index holding `c`, or -1. */
  function RFind(s: string, c: char): (r: int)
    ensures -1 <= r < |s|
    ensures r >= 0 ==> s[r] == c
    ensures forall k :: r < k < |s| ==> s[k] != c
  {
    if |s| == 0 then -1
    else if s[|s| - 1] == c then |s| - 1
    else RFind(s[..|s| - 1], c)
  }

  /**
   * `Path(p).suffix`: from the last dot of the final component when that dot is neither
   * its first nor its last character; "" otherwise (so `.pdf` and `a.` have no suffix).
   */
  function Suffix(p: string): (r: string)
  {
    var name := PathName(p);
    var i := RFind(name, '.');
    if 0 < i < |name| - 1 then name[i..] else ""
  }

  /** A non-empty suffix is a dot followed by at least one character and no further dot, ending the name. */
  lemma SuffixShape(p: string)
    ensures var r := Suffix(p);
            r != "" ==>
              && |r| >= 2 && r[0] == '.'
              && (forall k :: 1 <= k < |r| ==> r[k] != '.')
              && |r| < |PathName(p)| && EndsWith(PathName(p), r)
  {
  }

  /** The suffix is empty exactly when the final component has no dot past its first character or ends in one. */
  lemma SuffixEmptyIff(p: string)
    ensures var name := PathName(p);
            Suffix(p) == "" <==>
              (|name| == 0 || name[|name| - 1] == '.' || forall k :: 0 < k < |name| ==> name[k] != '.')
  {
    var name := PathName(p);
    var i := RFind(name, '.');
    if |name| > 0 && name[|name| - 1] != '.' && !(forall k :: 0 < k < |name| ==> name[k] != '.') {
      var k :| 0 < k < |name| && name[k] == '.';
      assert i >= k;
    }
  }
}
