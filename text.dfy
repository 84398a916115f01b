/**
 * String helpers shared by both clients: ASCII case folding, Kotlin's notion
 * of a blank string, substring search, joining and splitting on a separator,
 * and rendering/parsing of integers in base 10 and 16.
 */
module Text {
  import opened Wrappers

  // ---------------------------------------------------------------- case folding

  /** Lower-cases an ASCII capital letter; every other character is kept. */
  function LowerChar(c: char): (r: char)
    ensures 'A' <= c <= 'Z' ==> 'a' <= r <= 'z' && r as int == c as int + 32
    ensures !('A' <= c <= 'Z') ==> r == c
  {
    if 'A' <= c <= 'Z' then (c as int + 32) as char else c
  }

  function Lower(s: string): (r: string)
    ensures |r| == |s|
    ensures forall i :: 0 <= i < |s| ==> r[i] == LowerChar(s[i])
  {
    seq(|s|, i requires 0 <= i < |s| => LowerChar(s[i]))
  }

  lemma LowerIdempotent(s: string)
    ensures Lower(Lower(s)) == Lower(s)
  {
  }

  lemma LowerAppend(a: string, b: string)
    ensures Lower(a + b) == Lower(a) + Lower(b)
  {
    assert forall i :: 0 <= i < |a + b| ==> Lower(a + b)[i] == (Lower(a) + Lower(b))[i];
  }

  /** A string without capital letters is its own lower-case form. */
  lemma LowerOfLowerCase(s: string)
    requires forall i :: 0 <= i < |s| ==> !('A' <= s[i] <= 'Z')
    ensures Lower(s) == s
  {
  }

  // ---------------------------------------------------------------- blankness

  /**
   * Kotlin's `Char.isWhitespace` on the JVM: Java's `isWhitespace` or
   * `isSpaceChar`, i.e. the ASCII controls TAB..CR and FS..US plus every
   * character of the Unicode categories Zs, Zl and Zp.
   */
  predicate IsWhitespace(c: char)
  {
    ('\U{0009}' <= c <= '\U{000D}') || ('\U{001C}' <= c <= '\U{001F}')
    || c == '\U{0020}' || c == '\U{00A0}' || c == '\U{1680}' || ('\U{2000}' <= c <= '\U{200A}')
    || c == '\U{2028}' || c == '\U{2029}' || c == '\U{202F}' || c == '\U{205F}' || c == '\U{3000}'
  }

  /** Kotlin's `isBlank`: empty or whitespace only. */
  predicate IsBlank(s: string)
  {
    forall i :: 0 <= i < |s| ==> IsWhitespace(s[i])
  }

  /** Kotlin's `ifBlank { null }`: the string itself unless it is blank. */
  function NullIfBlank(s: string): (r: Option<string>)
    ensures r.None? <==> IsBlank(s)
    ensures r.Some? ==> r.value == s
  {
    if IsBlank(s) then None else Some(s)
  }

  /** `s?.ifBlank { null }` on a nullable string: no blank string survives, any other value does. */
  function OptionalNullIfBlank(s: Option<string>): (r: Option<string>)
    ensures r.Some? <==> s.Some? && !IsBlank(s.value)
    ensures r.Some? ==> r == s
  {
    if s.Some? then NullIfBlank(s.value) else None
  }

  /** Kotlin's `ifBlank { fallback }`: the string itself unless it is blank. */
  function IfBlank(s: string, fallback: string): (r: string)
    ensures IsBlank(s) ==> r == fallback
    ensures !IsBlank(s) ==> r == s
  {
    if IsBlank(s) then fallback else s
  }

  // ---------------------------------------------------------------- searching

  /** `q` occurs in `s` as a contiguous substring. */
  predicate Contains(s: string, q: string)
  {
    exists i :: 0 <= i <= |s| - |q| && q <= s[i..]
  }

  /** Index of the last occurrence of `c` in `s`, or -1. */
  function LastIndexOf(s: string, c: char): (r: int)
    ensures -1 <= r < |s|
    ensures r >= 0 ==> s[r] == c && forall j :: r < j < |s| ==> s[j] != c
    ensures r == -1 ==> c !in s
  {
    if s == [] then -1
    else if s[|s| - 1] == c then |s| - 1
    else LastIndexOf(s[..|s| - 1], c)
  }

  /** Kotlin's `substringAfterLast(c, "")`: the text after the last `c`, or "" when there is none. */
  function AfterLast(s: string, c: char): (r: string)
    ensures c !in r
    ensures c !in s ==> r == ""
    ensures c in s ==> exists k :: 0 <= k < |s| && s[k] == c && r == s[k + 1..]
  {
    var k := LastIndexOf(s, c);
    if k < 0 then "" else s[k + 1..]
  }

  /** `q` occurs in any string that has it as a middle part. */
  lemma ContainsInfix(a: string, q: string, b: string)
    ensures Contains(a + q + b, q)
  {
    var s := a + q + b;
    assert q <= s[|a|..];
  }

  /** `q` occurs in a five-part text of which it is the second part. */
  lemma ContainsSecondOfFive(a: string, q: string, b: string, c: string, d: string)
    ensures Contains(a + q + b + c + d, q)
  {
    var s := a + q + b + c + d;
    assert q <= s[|a|..];
  }

  /** `q` occurs in a five-part text of which it is the fourth part. */
  lemma ContainsFourthOfFive(a: string, b: string, c: string, q: string, d: string)
    ensures Contains(a + b + c + q + d, q)
  {
    var s := a + b + c + q + d;
    assert q <= s[|a + b + c|..];
  }

  /** `q` occurs in a seven-part text of which it is the fourth part. */
  lemma ContainsFourthOfSeven(a: string, b: string, c: string, q: string, d: string, e: string, f: string)
    ensures Contains(a + b + c + q + d + e + f, q)
  {
    var s := a + b + c + q + d + e + f;
    assert q <= s[|a + b + c|..];
  }

  /** A character that is not a letter is found at the same place before and after lower-casing. */
  lemma {:induction false} LastIndexOfLower(s: string, c: char)
    requires !('A' <= c <= 'Z') && !('a' <= c <= 'z')
    ensures LastIndexOf(Lower(s), c) == LastIndexOf(s, c)
  {
    if s != [] {
      assert Lower(s)[..|s| - 1] == Lower(s[..|s| - 1]);
      LastIndexOfLower(s[..|s| - 1], c);
    }
  }

  lemma AfterLastLower(s: string, c: char)
    requires !('A' <= c <= 'Z') && !('a' <= c <= 'z')
    ensures AfterLast(Lower(s), c) == Lower(AfterLast(s, c))
  {
    var k := LastIndexOf(s, c);
    LastIndexOfLower(s, c);
    if k >= 0 {
      var lower := Lower(s);
      assert AfterLast(lower, c) == lower[k + 1..] by {
        AfterLastAt(lower, c, k);
      }
      assert AfterLast(s, c) == s[k + 1..] by {
        AfterLastAt(s, c, k);
      }
      LowerSuffix(s, k + 1);
    } else {
      assert Lower(AfterLast(s, c)) == Lower([]);
    }
  }

  lemma AfterLastAt(s: string, c: char, k: int)
    requires 0 <= k && k == LastIndexOf(s, c)
    ensures AfterLast(s, c) == s[k + 1..]
  {
  }

  /** `AfterLast` drops everything up to the last occurrence. */
  lemma AfterLastIndex(s: string, c: char)
    ensures var k := LastIndexOf(s, c);
      AfterLast(s, c) == if k < 0 then "" else s[k + 1..]
  {
  }

  /** Lower-casing commutes with dropping a prefix. */
  lemma LowerSuffix(s: string, i: nat)
    requires i <= |s|
    ensures Lower(s)[i..] == Lower(s[i..])
  {
  }

  /** The last `/`-separated component of a path. */
  function LastComponent(path: string): (r: string)
    ensures '/' !in r
    ensures '/' !in path ==> r == path
  {
    if '/' in path then AfterLast(path, '/') else path
  }

  lemma LastComponentLower(path: string)
    ensures LastComponent(Lower(path)) == Lower(LastComponent(path))
  {
    LastIndexOfLower(path, '/');
    AfterLastLower(path, '/');
  }

  /** The text after the last `.` of a path component, unless that `.` is its first character. */
  function NameExtension(name: string): (r: string)
    ensures '.' !in r
    ensures '.' !in name ==> r == ""
  {
    var k := LastIndexOf(name, '.');
    if k <= 0 then "" else
      assert forall j :: k + 1 <= j < |name| ==> name[j] != '.';
      name[k + 1..]
  }

  lemma NameExtensionLower(name: string)
    ensures NameExtension(Lower(name)) == Lower(NameExtension(name))
  {
    LastIndexOfLower(name, '.');
    var k := LastIndexOf(name, '.');
    if k > 0 {
      assert Lower(name)[k + 1..] == Lower(name[k + 1..]);
    }
  }

  /**
   * Foundation's `NSString.pathExtension` on a file name: the text after the
   * last `.` of the last path component, and "" when that component has no
   * `.` or only a leading one.
   */
  function PathExtension(path: string): (r: string)
    ensures '.' !in r && '/' !in r
    ensures '.' !in path ==> r == ""
  {
    NameExtension(LastComponent(path))
  }

  /** The extension of a lower-cased name is the lower-cased extension. */
  lemma PathExtensionLower(path: string)
    ensures PathExtension(Lower(path)) == Lower(PathExtension(path))
  {
    LastComponentLower(path);
    NameExtensionLower(LastComponent(path));
  }

  /** A plain name followed by `.` and an extension has that extension. */
  lemma PathExtensionOfName(stem: string, ext: string)
    requires stem != [] && '.' !in stem && '/' !in stem
    requires '.' !in ext && '/' !in ext
    ensures PathExtension(stem + "." + ext) == ext
    ensures AfterLast(stem + "." + ext, '.') == ext
  {
    var s := stem + "." + ext;
    assert s[|stem|] == '.';
    assert forall j :: |stem| < j < |s| ==> s[j] == ext[j - |stem| - 1];
    assert LastIndexOf(s, '.') == |stem|;
    assert s[|stem| + 1..] == ext;
    assert '/' !in s;
  }

  // ---------------------------------------------------------------- join / split

  /** Kotlin's `joinToString(sep)` and Swift's `joined(separator:)`. */
  function Join(parts: seq<string>, sep: string): string
  {
    if |parts| == 0 then ""
    else if |parts| == 1 then parts[0]
    else parts[0] + sep + Join(parts[1..], sep)
  }

  /** Splits at every `sep`; the empty string gives one empty piece. */
  function Split(s: string, sep: char): (r: seq<string>)
    ensures |r| >= 1
    ensures forall k :: 0 <= k < |r| ==> sep !in r[k]
  {
    if s == [] then [[]]
    else
      var rest := Split(s[1..], sep);
      if s[0] == sep then [[]] + rest else [[s[0]] + rest[0]] + rest[1..]
  }

  lemma {:induction false} SplitPrefix(a: string, t: string, sep: char)
    requires sep !in a
    ensures Split(a + t, sep) == [a + Split(t, sep)[0]] + Split(t, sep)[1..]
  {
    var rest := Split(t, sep);
    if a == [] {
      assert a + t == t;
      assert a + rest[0] == rest[0];
      assert rest == [rest[0]] + rest[1..];
    } else {
      assert (a + t)[1..] == a[1..] + t;
      SplitPrefix(a[1..], t, sep);
      assert [a[0]] + (a[1..] + Split(t, sep)[0]) == a + Split(t, sep)[0];
    }
  }

  lemma SplitAtSeparator(a: string, b: string, sep: char)
    requires sep !in a
    ensures Split(a + [sep] + b, sep) == [a] + Split(b, sep)
  {
    var t := [sep] + b;
    assert a + [sep] + b == a + t;
    assert t[0] == sep && t[1..] == b;
    assert Split(t, sep) == [[]] + Split(b, sep);
    SplitPrefix(a, t, sep);
    assert a + [] == a;
  }

  /** A character missing from the split string is missing from every piece. */
  lemma {:induction false} SplitAvoids(s: string, sep: char, c: char)
    requires c !in s
    ensures forall k :: 0 <= k < |Split(s, sep)| ==> c !in Split(s, sep)[k]
  {
    if s != [] {
      assert c != s[0] && c !in s[1..];
      SplitAvoids(s[1..], sep, c);
    }
  }

  /** Joining pieces that do not contain the separator and splitting again gives the pieces back. */
  lemma {:induction false} SplitJoin(parts: seq<string>, sep: char)
    requires |parts| >= 1
    requires forall k :: 0 <= k < |parts| ==> sep !in parts[k]
    ensures Split(Join(parts, [sep]), sep) == parts
  {
    if |parts| == 1 {
      SplitPrefix(parts[0], [], sep);
      assert parts[0] + [] == parts[0];
    } else {
      SplitJoin(parts[1..], sep);
      SplitAtSeparator(parts[0], Join(parts[1..], [sep]), sep);
      assert parts == [parts[0]] + parts[1..];
    }
  }

  // ---------------------------------------------------------------- numerals

  /** The value of a digit character (lower-case letters above 9), or -1. */
  function CharValue(c: char): (v: int)
    ensures -1 <= v < 16
  {
    if '0' <= c <= '9' then c as int - '0' as int
    else if 'a' <= c <= 'f' then c as int - 'a' as int + 10
    else -1
  }

  function DigitChar(d: nat): (c: char)
    requires d < 16
    ensures CharValue(c) == d
    ensures c == '0' <==> d == 0
  {
    if d < 10 then ('0' as int + d) as char else ('a' as int + d - 10) as char
  }

  /** The value of a base-`radix` digit, or -1. */
  function DigitValue(c: char, radix: nat): (v: int)
    ensures -1 <= v < radix
  {
    var d := CharValue(c);
    if d < radix then d else -1
  }

  lemma DivisionShrinks(n: nat, radix: nat)
    requires 2 <= radix <= n
    ensures 1 <= n / radix < n && n % radix < radix
    ensures n == n / radix * radix + n % radix
  {
    assert n == radix * (n / radix) + n % radix;
  }

  predicate IsNumeral(s: string, radix: nat)
  {
    |s| >= 1 && forall i :: 0 <= i < |s| ==> DigitValue(s[i], radix) >= 0
  }

  /**
   * Swift's `String(n, radix:)` and Kotlin's `toString()` for a non-negative
   * number: the digits of `n`, lower-case, without leading zeros.
   */
  function NatToRadix(n: nat, radix: nat): (r: string)
    requires 2 <= radix <= 16
    ensures IsNumeral(r, radix)
    ensures n == 0 <==> r == "0"
    ensures n > 0 ==> r[0] != '0'
    decreases n
  {
    if n < radix then [DigitChar(n)]
    else
      DivisionShrinks(n, radix);
      var front := NatToRadix(n / radix, radix);
      var r := front + [DigitChar(n % radix)];
      assert forall i :: 0 <= i < |front| ==> r[i] == front[i];
      r
  }

  function ParseNumeral(s: string, radix: nat): (n: nat)
    requires IsNumeral(s, radix) || s == []
  {
    if s == [] then 0
    else ParseNumeral(s[..|s| - 1], radix) * radix + DigitValue(s[|s| - 1], radix)
  }

  lemma ParseAppendDigit(front: string, c: char, radix: nat)
    requires IsNumeral(front, radix) && DigitValue(c, radix) >= 0
    ensures IsNumeral(front + [c], radix)
    ensures ParseNumeral(front + [c], radix) == ParseNumeral(front, radix) * radix + DigitValue(c, radix)
  {
    assert (front + [c])[..|front|] == front;
  }

  /** Rendering a number and parsing it back gives the number. */
  lemma {:induction false} NatToRadixRoundTrip(n: nat, radix: nat)
    requires 2 <= radix <= 16
    ensures ParseNumeral(NatToRadix(n, radix), radix) == n
    decreases n
  {
    var r := NatToRadix(n, radix);
    if n < radix {
      assert r[..|r| - 1] == [];
    } else {
      DivisionShrinks(n, radix);
      var q, d := n / radix, n % radix;
      NatToRadixRoundTrip(q, radix);
      ParseAppendDigit(NatToRadix(q, radix), DigitChar(d), radix);
    }
  }

  /** Decimal rendering of a (possibly negative) integer, as string interpolation does it. */
  function IntToString(i: int): (r: string)
    ensures |r| >= 1
    ensures i < 0 <==> r[0] == '-'
  {
    if i < 0 then "-" + NatToRadix(-i, 10) else NatToRadix(i, 10)
  }

  function ParseInt(s: string): Option<int>
  {
    if |s| >= 2 && s[0] == '-' && IsNumeral(s[1..], 10) then
      var magnitude: int := ParseNumeral(s[1..], 10); Some(-magnitude)
    else if IsNumeral(s, 10) then Some(ParseNumeral(s, 10))
    else None
  }

  lemma IntToStringRoundTrip(i: int)
    ensures ParseInt(IntToString(i)) == Some(i)
  {
    var digits := NatToRadix(if i < 0 then -i else i, 10);
    NatToRadixRoundTrip(if i < 0 then -i else i, 10);
    if i < 0 {
      ParseNegative(digits);
    } else {
      ParseNonNegative(digits);
    }
  }

  /** A minus sign before a decimal numeral negates it. */
  lemma ParseNegative(digits: string)
    requires IsNumeral(digits, 10)
    ensures ParseInt("-" + digits) == Some(-(ParseNumeral(digits, 10) as int))
  {
    assert ("-" + digits)[0] == '-' && ("-" + digits)[1..] == digits;
  }

  /** A decimal numeral parses as itself: its first character is no minus sign. */
  lemma ParseNonNegative(digits: string)
    requires IsNumeral(digits, 10)
    ensures ParseInt(digits) == Some(ParseNumeral(digits, 10))
  {
    assert DigitValue(digits[0], 10) >= 0;
  }
}
