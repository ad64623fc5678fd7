/**
 * The JavaScript and Node.js string operations the application relies on, written out character by
 * character: `startsWith`, `endsWith`, `indexOf`, `includes`, first-occurrence `replace`, the regular
 * expression `/^0+/`, `padStart`, `trim`, `toLowerCase` (ASCII letters), `join`, number-to-string
 * conversion, `parseInt` and Node's `path.extname`.
 */
module JsStrings {
  import opened Wrappers

  predicate StartsWith(s: string, prefix: string) {
    |prefix| <= |s| && s[..|prefix|] == prefix
  }

  predicate EndsWith(s: string, suffix: string) {
    |suffix| <= |s| && s[|s| - |suffix|..] == suffix
  }

  /** `pat` occurs in `s` starting at position `i`. */
  predicate OccursAt(s: string, pat: string, i: int) {
    0 <= i && i + |pat| <= |s| && s[i..i + |pat|] == pat
  }

  /** `i` is the first position where `pat` occurs in `s`. */
  predicate FirstOccurrence(s: string, pat: string, i: int) {
    OccursAt(s, pat, i) && forall j :: 0 <= j < i ==> !OccursAt(s, pat, j)
  }

  /** `s.indexOf(pat, from)`: the first position at or after `from` where `pat` occurs. */
  function IndexOfFrom(s: string, pat: string, from: nat): (r: Option<nat>)
    decreases |s| - from
    ensures r.Some? ==> from <= r.value && OccursAt(s, pat, r.value)
    ensures r.Some? ==> forall j :: from <= j < r.value ==> !OccursAt(s, pat, j)
    ensures r.None? ==> forall j :: from <= j ==> !OccursAt(s, pat, j)
  {
    if |s| < from + |pat| then None
    else if s[from..from + |pat|] == pat then Some(from)
    else IndexOfFrom(s, pat, from + 1)
  }

  function IndexOf(s: string, pat: string): Option<nat> {
    IndexOfFrom(s, pat, 0)
  }

  /** `s.includes(sub)`. */
  function Contains(s: string, sub: string): (b: bool)
    ensures b <==> exists i :: OccursAt(s, sub, i)
  {
    IndexOf(s, sub).Some?
  }

  /** `s.replace(pat, rep)` with a string pattern: only the first occurrence is replaced. */
  function ReplaceFirst(s: string, pat: string, rep: string): (r: string)
    ensures (forall i :: !OccursAt(s, pat, i)) ==> r == s
    ensures StartsWith(s, pat) ==> r == rep + s[|pat|..]
  {
    match IndexOf(s, pat)
    case None => s
    case Some(i) =>
      assert OccursAt(s, pat, i);
      s[..i] + rep + s[i + |pat|..]
  }

  /** When `i` is the first position where `pat` occurs, `replace` substitutes `rep` there. */
  lemma ReplaceFirstAt(s: string, pat: string, rep: string, i: nat)
    requires OccursAt(s, pat, i)
    requires forall j :: 0 <= j < i ==> !OccursAt(s, pat, j)
    ensures ReplaceFirst(s, pat, rep) == s[..i] + rep + s[i + |pat|..]
  {
    var r := IndexOf(s, pat);
    assert r.Some?;
    assert r.value == i;
  }

  /** `s.replace(/^0+/, "")`: the run of leading '0' characters removed. */
  function StripLeadingZeros(s: string): (r: string)
    ensures |r| <= |s| && r == s[|s| - |r|..]
    ensures forall i :: 0 <= i < |s| - |r| ==> s[i] == '0'
    ensures r == [] || r[0] != '0'
    ensures r == [] <==> forall i :: 0 <= i < |s| ==> s[i] == '0'
  {
    if s != [] && s[0] == '0' then StripLeadingZeros(s[1..]) else s
  }

  /** Removing the leading zeros of some zeros followed by a string that does not start with '0'
      gives back that string. */
  lemma {:induction false} StripZerosBeforeNonZero(k: nat, s: string)
    requires s == [] || s[0] != '0'
    ensures StripLeadingZeros(seq(k, _ => '0') + s) == s
  {
    if k > 0 {
      assert (seq(k, _ => '0') + s)[1..] == seq(k - 1, _ => '0') + s;
      StripZerosBeforeNonZero(k - 1, s);
    } else {
      assert seq(k, _ => '0') + s == s;
    }
  }

  /** `a || b` for two strings: the empty string is falsy. */
  function Or(s: string, default: string): string {
    if s != "" then s else default
  }

  /** A string that may be `undefined` is truthy when it is defined and not empty. */
  predicate Truthy(v: Option<string>) {
    v.Some? && v.value != ""
  }

  /** `v || b` where `v` may be `undefined`. */
  function OptOr(v: Option<string>, default: string): string {
    if v.Some? then Or(v.value, default) else default
  }

  /** `s.padStart(width, c)` with a one-character pad string. */
  function PadStart(s: string, width: nat, c: char): (r: string)
    ensures |r| == if |s| < width then width else |s|
    ensures r[|r| - |s|..] == s
    ensures forall i :: 0 <= i < |r| - |s| ==> r[i] == c
  {
    if |s| < width then seq(width - |s|, _ => c) + s else s
  }

  /** `toLowerCase` on one character, for the ASCII letters. */
  function ToLowerChar(c: char): char {
    if 'A' <= c <= 'Z' then (c as int + 32) as char else c
  }

  function ToLower(s: string): string {
    seq(|s|, i requires 0 <= i < |s| => ToLowerChar(s[i]))
  }

  /** Lower-casing twice changes nothing more than lower-casing once. */
  lemma ToLowerIdempotent(s: string)
    ensures ToLower(ToLower(s)) == ToLower(s)
  {
    assert forall i :: 0 <= i < |s| ==> ToLowerChar(ToLowerChar(s[i])) == ToLowerChar(s[i]);
  }

  /** The characters `String.prototype.trim` removes: ECMAScript white space and line terminators. */
  predicate IsJsWhitespace(c: char) {
    || c == '\t' || c == '\n' || c == '\U{000B}' || c == '\U{000C}' || c == '\r' || c == ' '
    || c == '\U{00A0}' || c == '\U{1680}' || ('\U{2000}' <= c <= '\U{200A}')
    || c == '\U{2028}' || c == '\U{2029}' || c == '\U{202F}' || c == '\U{205F}'
    || c == '\U{3000}' || c == '\U{FEFF}'
  }

  predicate IsBlank(s: string) {
    forall i :: 0 <= i < |s| ==> IsJsWhitespace(s[i])
  }

  /** `trimStart`: the leading white space removed. */
  function TrimStart(s: string): (r: string)
    ensures |r| <= |s| && r == s[|s| - |r|..]
    ensures forall i :: 0 <= i < |s| - |r| ==> IsJsWhitespace(s[i])
    ensures r == [] || !IsJsWhitespace(r[0])
    ensures r == [] <==> IsBlank(s)
    ensures s != [] && !IsJsWhitespace(s[0]) ==> r == s
  {
    if s != [] && IsJsWhitespace(s[0]) then
      var r := TrimStart(s[1..]);
      assert s[|s| - |r|..] == s[1..][|s| - 1 - |r|..];
      assert IsBlank(s) <==> IsBlank(s[1..]) by {
        assert forall i :: 1 <= i < |s| ==> s[i] == s[1..][i - 1];
      }
      r
    else s
  }

  /** `trimEnd`: the trailing white space removed. */
  function TrimEnd(s: string): (r: string)
    ensures |r| <= |s| && r == s[..|r|]
    ensures forall i :: |r| <= i < |s| ==> IsJsWhitespace(s[i])
    ensures r == [] || !IsJsWhitespace(r[|r| - 1])
    ensures r == [] <==> IsBlank(s)
  {
    if s != [] && IsJsWhitespace(s[|s| - 1]) then TrimEnd(s[..|s| - 1]) else s
  }

  function Trim(s: string): string {
    TrimEnd(TrimStart(s))
  }

  /** A string trims to "" exactly when every character of it is white space. */
  lemma TrimEmptyIffBlank(s: string)
    ensures Trim(s) == "" <==> IsBlank(s)
  {
    var t := TrimStart(s);
    assert IsBlank(t) <==> t == [];
  }

  /** `parts.join(sep)`. */
  function Join(parts: seq<string>, sep: string): string {
    if parts == [] then ""
    else if |parts| == 1 then parts[0]
    else parts[0] + sep + Join(parts[1..], sep)
  }

  /** Every part of a joined list appears in the joined string. */
  lemma {:induction false} JoinContainsPart(parts: seq<string>, sep: string, i: nat)
    requires i < |parts|
    ensures Contains(Join(parts, sep), parts[i])
  {
    var j := Join(parts, sep);
    if |parts| == 1 {
      assert OccursAt(j, parts[i], 0);
    } else {
      var head := parts[0] + sep;
      var rest := Join(parts[1..], sep);
      assert j == head + rest;
      if i == 0 {
        assert j[..|parts[0]|] == parts[0];
        assert OccursAt(j, parts[i], 0);
      } else {
        JoinContainsPart(parts[1..], sep, i - 1);
        var k :| OccursAt(rest, parts[i], k);
        assert j[|head| + k..|head| + k + |parts[i]|] == rest[k..k + |parts[i]|];
        assert OccursAt(j, parts[i], |head| + k);
      }
    }
  }

  predicate IsDecimalDigit(c: char) {
    '0' <= c <= '9'
  }

  function DigitChar(d: nat): char
    requires d < 10
  {
    ('0' as int + d) as char
  }

  /** The decimal representation of a non-negative integer, as `String(n)` writes it. */
  function NatToString(n: nat): (r: string)
    ensures r != [] && forall i :: 0 <= i < |r| ==> IsDecimalDigit(r[i])
    ensures n > 0 ==> r[0] != '0'
  {
    if n < 10 then [DigitChar(n)] else NatToString(n / 10) + [DigitChar(n % 10)]
  }

  /** `String(i)` (and `${i}`) for an integer-valued number. */
  function IntToString(i: int): string {
    if i < 0 then "-" + NatToString(-i) else NatToString(i)
  }

  /** The value of character `c` as a digit in base `radix` (10 or 16), if it is one. */
  function DigitValue(c: char, radix: nat): (r: Option<nat>)
    ensures r.Some? ==> r.value < radix
    ensures IsDecimalDigit(c) && 10 <= radix ==> r == Some(c as int - '0' as int)
  {
    if '0' <= c <= '9' && c as int - '0' as int < radix then Some(c as int - '0' as int)
    else if 'a' <= c <= 'z' && c as int - 'a' as int + 10 < radix then Some(c as int - 'a' as int + 10)
    else if 'A' <= c <= 'Z' && c as int - 'A' as int + 10 < radix then Some(c as int - 'A' as int + 10)
    else None
  }

  /** The longest prefix of `s` made of digits in base `radix`. */
  function DigitPrefix(s: string, radix: nat): (r: string)
    ensures |r| <= |s| && r == s[..|r|]
    ensures forall i :: 0 <= i < |r| ==> DigitValue(r[i], radix).Some?
    ensures |r| < |s| ==> DigitValue(s[|r|], radix).None?
    ensures (forall i :: 0 <= i < |s| ==> DigitValue(s[i], radix).Some?) ==> r == s
  {
    if s != [] && DigitValue(s[0], radix).Some? then [s[0]] + DigitPrefix(s[1..], radix) else []
  }

  /** The value of a digit string, most significant digit first (callers pass digits only). */
  function DigitsValue(ds: string, radix: nat): nat {
    if ds == [] then 0
    else DigitsValue(ds[..|ds| - 1], radix) * radix + DigitValue(ds[|ds| - 1], radix).GetOr(0)
  }

  /** The digits at the start of `v` read in base `radix`, or `None` (NaN) when there are none. */
  function ParseDigits(v: string, radix: nat): Option<nat> {
    var ds := DigitPrefix(v, radix);
    if ds == [] then None else Some(DigitsValue(ds, radix))
  }

  /** An unsigned number: a "0x"/"0X" prefix selects base 16, otherwise base 10. */
  function ParseUnsigned(u: string): Option<nat> {
    if |u| >= 2 && u[0] == '0' && (u[1] == 'x' || u[1] == 'X') then ParseDigits(u[2..], 16)
    else ParseDigits(u, 10)
  }

  /** An optionally signed number after the leading white space. */
  function ParseSigned(t: string): Option<int> {
    if t != [] && (t[0] == '-' || t[0] == '+') then
      match ParseUnsigned(t[1..])
      case None => None
      case Some(n) => Some(if t[0] == '-' then -(n as int) else n)
    else
      match ParseUnsigned(t)
      case None => None
      case Some(n) => Some(n)
  }

  /**
   * `parseInt(s)` without a radix argument: leading white space is skipped, then an optional sign,
   * then the unsigned part; `None` stands for NaN.
   */
  function ParseInt(s: string): Option<int> {
    ParseSigned(TrimStart(s))
  }

  /** Reading back the decimal digits of `n` gives `n`. */
  lemma {:induction false} NatToStringValue(n: nat)
    ensures forall i :: 0 <= i < |NatToString(n)| ==> DigitValue(NatToString(n)[i], 10).Some?
    ensures DigitsValue(NatToString(n), 10) == n
  {
    var s := NatToString(n);
    if n >= 10 {
      NatToStringValue(n / 10);
      assert s[..|s| - 1] == NatToString(n / 10);
    }
  }

  /** The unsigned part of `parseInt` reads the decimal digits of `n` back as `n`. */
  lemma ParseUnsignedOfDigits(n: nat)
    ensures ParseUnsigned(NatToString(n)) == Some(n)
  {
    var ds := NatToString(n);
    NatToStringValue(n);
    assert DigitPrefix(ds, 10) == ds;
    assert ParseDigits(ds, 10) == Some(n);
    assert |ds| >= 2 ==> IsDecimalDigit(ds[1]);
  }

  /** `parseInt` reads the decimal digits of `n`, with or without a minus sign, back as `n` or `-n`. */
  lemma ParseIntOfDigits(n: nat)
    ensures ParseInt(NatToString(n)) == Some(n)
    ensures ParseInt("-" + NatToString(n)) == Some(-(n as int))
  {
    var ds := NatToString(n);
    ParseUnsignedOfDigits(n);
    assert ParseSigned(ds) == Some(n) by {
      assert !IsJsWhitespace(ds[0]) && ds[0] != '-' && ds[0] != '+';
    }
    assert TrimStart(ds) == ds by {
      assert !IsJsWhitespace(ds[0]);
    }
    var neg := "-" + ds;
    assert neg[1..] == ds;
    assert ParseSigned(neg) == Some(-(n as int));
    assert TrimStart(neg) == neg;
  }

  /** `parseInt(String(i)) === i` for every integer-valued number. */
  lemma ParseIntOfIntToString(i: int)
    ensures ParseInt(IntToString(i)) == Some(i)
  {
    ParseIntOfDigits(if i < 0 then -i else i);
  }

  /** The position of the last occurrence of `c` in `s`. */
  function LastIndexOf(s: string, c: char): (r: Option<nat>)
    ensures r.Some? ==> r.value < |s| && s[r.value] == c
    ensures r.Some? ==> forall j :: r.value < j < |s| ==> s[j] != c
    ensures r.None? ==> forall j :: 0 <= j < |s| ==> s[j] != c
  {
    if s == [] then None
    else if s[|s| - 1] == c then Some(|s| - 1)
    else LastIndexOf(s[..|s| - 1], c)
  }

  /**
   * Node's `path.extname` for a bare file name: from the last '.' to the end; "" when there is no
   * '.', when the last '.' is the first character (".profile") and for "..".
   */
  function ExtName(name: string): (e: string)
    ensures e != "" ==> e[0] == '.' && EndsWith(name, e)
    ensures forall i :: 1 <= i < |e| ==> e[i] != '.'
  {
    match LastIndexOf(name, '.')
    case None => ""
    case Some(p) => if p == 0 || name == ".." then "" else name[p..]
  }

  /** A name made of a non-empty stem, a '.' and a dot-free extension has that extension. */
  lemma ExtNameOf(stem: string, ext: string)
    requires stem != [] && !(stem == "." && ext == "")
    requires forall i :: 0 <= i < |ext| ==> ext[i] != '.'
    ensures ExtName(stem + "." + ext) == "." + ext
  {
    var name := stem + "." + ext;
    var p := LastIndexOf(name, '.');
    assert name[|stem|] == '.';
    assert forall j :: |stem| < j < |name| ==> name[j] == ext[j - |stem| - 1];
    assert p.Some? && p.value == |stem|;
    if ext == "" && |stem| == 1 {
      assert stem == [stem[0]];
      assert name[0] == stem[0] != '.';
    }
    assert name[|stem|..] == "." + ext;
  }

  /** Appending an extension (a '.' and no further '.') to a name not starting with '.' gives that extension. */
  lemma ExtNameOfSuffix(head: string, ext: string)
    requires head != [] && head[0] != '.'
    requires ext != [] && ext[0] == '.' && forall i :: 1 <= i < |ext| ==> ext[i] != '.'
    ensures ExtName(head + ext) == ext
  {
    assert head + ext == head + "." + ext[1..];
    assert ext == "." + ext[1..];
    ExtNameOf(head, ext[1..]);
  }

  /** Two strings that share their head and their tail and are equal have the same middle. */
  lemma SameFrameSameMiddle(head: string, a: string, b: string, tail: string)
    requires head + a + tail == head + b + tail
    ensures a == b
  {
    var x := head + a + tail;
    assert |a| == |b|;
    assert x[|head|..|head| + |a|] == a;
    assert (head + b + tail)[|head|..|head| + |b|] == b;
  }
}
