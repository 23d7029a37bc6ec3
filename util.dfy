/** The string helpers of schism/util.c: the base name of a path, whitespace trimming
    of NUL-terminated buffers, fixed-width hex parsing and backslash-escape decoding. */
module Util {
  import opened Bytes

  // ---------------------------------------------------------------------------
  // get_basename

  /** strrchr: the index of the last `c` in `s`, if any. */
  function LastIndexOf(s: string, c: char): (r: Option<nat>)
    ensures r.Some? ==> r.value < |s| && s[r.value] == c && c !in s[r.value + 1..]
    ensures r.None? ==> c !in s
  {
    if |s| == 0 then None
    else if s[|s| - 1] == c then Some(|s| - 1)
    else
      var r := LastIndexOf(s[..|s| - 1], c);
      assert s == s[..|s| - 1] + [s[|s| - 1]];
      r
  }

  /** get_basename with the build's directory separator `sep`: what follows the last
      separator, or the whole name when there is none or nothing follows it. */
  function Basename(filename: string, sep: char): (base: string)
  {
    match LastIndexOf(filename, sep)
    case Some(k) => if k + 1 < |filename| then filename[k + 1..] else filename
    case None => filename
  }

  /** The base name is a suffix of the path; it is the whole path exactly when there is
      no separator or the last one ends the path, and otherwise it holds no separator and
      is not empty. */
  lemma BasenameFacts(filename: string, sep: char)
    ensures var base := Basename(filename, sep);
      && |base| <= |filename| && base == filename[|filename| - |base|..]
      && (sep !in filename ==> base == filename)
      && (|filename| > 0 && filename[|filename| - 1] == sep ==> base == filename)
      && (sep in filename && filename[|filename| - 1] != sep ==>
            sep !in base && |base| > 0 && filename[|filename| - |base| - 1] == sep)
  {
    var base := Basename(filename, sep);
    match LastIndexOf(filename, sep)
    case Some(k) =>
      assert filename[|filename| - |base|..] == base;
    case None =>
      assert filename[0..] == filename;
  }

  // ---------------------------------------------------------------------------
  // NUL-terminated buffers

  /** strlen: the index of the first NUL in the buffer. */
  function CLen(buf: seq<char>): (n: nat)
    requires '\0' in buf
    ensures n < |buf| && buf[n] == '\0' && '\0' !in buf[..n]
  {
    if buf[0] == '\0' then 0
    else
      assert buf == [buf[0]] + buf[1..];
      1 + CLen(buf[1..])
  }

  /** The C string a buffer holds: the characters before its first NUL. */
  function Content(buf: seq<char>): (r: string)
    requires '\0' in buf
    ensures '\0' !in r
  {
    buf[..CLen(buf)]
  }

  /** A NUL at n with none before it is where the string ends. */
  lemma CLenAt(buf: seq<char>, n: nat)
    requires n < |buf| && buf[n] == '\0' && '\0' !in buf[..n]
    ensures CLen(buf) == n
  {
  }

  // ---------------------------------------------------------------------------
  // ltrim_string, rtrim_string, trim_string

  const VT: char := 11 as char

  /** A member of the whitespace set " \t\v\r\n". */
  predicate IsSpace(c: char) {
    c == ' ' || c == '\t' || c == VT || c == '\r' || c == '\n'
  }

  /** strspn over the whitespace set: the length of the leading run of whitespace. */
  function LeadingSpace(s: string): (n: nat)
    ensures n <= |s| && (forall i :: 0 <= i < n ==> IsSpace(s[i])) && (n < |s| ==> !IsSpace(s[n]))
  {
    if |s| == 0 || !IsSpace(s[0]) then 0 else 1 + LeadingSpace(s[1..])
  }

  /** What ltrim_string leaves: the string without its leading whitespace. */
  function TrimLeft(s: string): (r: string)
    ensures |r| <= |s| && r == s[|s| - |r|..]
    ensures r == [] || !IsSpace(r[0])
    ensures forall i :: 0 <= i < |s| - |r| ==> IsSpace(s[i])
  {
    s[LeadingSpace(s)..]
  }

  /** n is the length rtrim_string keeps of s: trailing whitespace removed, except that
      the first character is never removed. */
  ghost predicate RightTrimmed(s: string, n: nat) {
    n <= |s| && (forall i :: n <= i < |s| ==> IsSpace(s[i]))
    && (|s| == 0 ==> n == 0)
    && (|s| > 0 ==> 1 <= n && (n == 1 || !IsSpace(s[n - 1])))
  }

  /** The length rtrim_string keeps. */
  function KeptLength(s: string): (n: nat)
    ensures RightTrimmed(s, n)
  {
    if |s| <= 1 || !IsSpace(s[|s| - 1]) then |s|
    else
      var n := KeptLength(s[..|s| - 1]);
      assert forall i :: n <= i < |s| - 1 ==> s[i] == s[..|s| - 1][i];
      n
  }

  /** Only one length is right-trimmed, so KeptLength is the rtrim_string result. */
  lemma RightTrimmedUnique(s: string, n: nat, m: nat)
    requires RightTrimmed(s, n) && RightTrimmed(s, m)
    ensures n == m
  {
  }

  /** What trim_string leaves. */
  function Trimmed(s: string): string {
    TrimLeft(s)[..KeptLength(TrimLeft(s))]
  }

  /** trim_string removes exactly the surrounding whitespace: the result is a contiguous
      part of s, empty exactly when s is all whitespace, and otherwise it starts and ends
      with a non-space character; trimming again changes nothing. */
  lemma TrimmedFacts(s: string)
    ensures var t := Trimmed(s);
      && LeadingSpace(s) + |t| <= |s| && t == s[LeadingSpace(s)..LeadingSpace(s) + |t|]
      && (t == [] <==> forall i :: 0 <= i < |s| ==> IsSpace(s[i]))
      && (t != [] ==> !IsSpace(t[0]) && !IsSpace(t[|t| - 1]))
      && Trimmed(t) == t
  {
    TrimmedSlice(s);
    TrimmedEnds(s);
    TrimmedIdempotent(s);
  }

  /** The trimmed string is the part of s after its leading whitespace. */
  lemma TrimmedSlice(s: string)
    ensures LeadingSpace(s) + |Trimmed(s)| <= |s|
    ensures Trimmed(s) == s[LeadingSpace(s)..LeadingSpace(s) + |Trimmed(s)|]
  {
    var l := TrimLeft(s);
    PrefixOfSuffix(s, LeadingSpace(s), KeptLength(l));
  }

  /** A prefix of a suffix is a slice. */
  lemma PrefixOfSuffix(s: string, k: nat, m: nat)
    requires k + m <= |s|
    ensures s[k..][..m] == s[k..k + m]
  {
  }

  /** The trimmed string is empty only for all-whitespace input, and otherwise has
      non-space ends. */
  lemma TrimmedEnds(s: string)
    ensures Trimmed(s) == [] <==> forall i :: 0 <= i < |s| ==> IsSpace(s[i])
    ensures Trimmed(s) != [] ==> !IsSpace(Trimmed(s)[0]) && !IsSpace(Trimmed(s)[|Trimmed(s)| - 1])
  {
    var l := TrimLeft(s);
    var k := KeptLength(l);
    assert RightTrimmed(l, k);
    if l != [] {
      assert k >= 1;
      assert Trimmed(s)[0] == l[0];
      assert Trimmed(s)[k - 1] == l[k - 1];
    }
  }

  /** Trimming a trimmed string changes nothing. */
  lemma TrimmedIdempotent(s: string)
    ensures Trimmed(Trimmed(s)) == Trimmed(s)
  {
    var t := Trimmed(s);
    TrimmedEnds(s);
    if t != [] {
      assert LeadingSpace(t) == 0;
      assert TrimLeft(t) == t;
      RightTrimmedUnique(t, |t|, KeptLength(t));
      assert t[..|t|] == t;
    }
  }

  /** ltrim_string on a buffer holding a NUL-terminated string: the leading whitespace
      is moved out with a memmove of the rest and its terminator; the result is the new
      length. */
  method LTrim(a: array<char>) returns (len: int)
    requires '\0' in a[..]
    modifies a
    ensures '\0' in a[..] && Content(a[..]) == TrimLeft(old(Content(a[..])))
    ensures len == |Content(a[..])|
  {
    ghost var s := Content(a[..]);
    ghost var buf := a[..];
    var n := CLen(a[..]);
    var ws := LeadingSpace(a[..n]);
    len := n - ws;
    if ws != 0 {
      var k := 0;
      while k < len + 1
        invariant 0 <= k <= len + 1
        invariant forall i :: 0 <= i < k ==> a[i] == buf[i + ws]
        invariant forall i :: k <= i < a.Length ==> a[i] == buf[i]
      {
        a[k] := a[k + ws];
        k := k + 1;
      }
    }
    assert a[len] == '\0';
    assert a[..len] == s[ws..];
    CLenAt(a[..], len);
  }

  /** rtrim_string: walk back over trailing whitespace (never past index 0), then store
      the terminator. */
  method RTrim(a: array<char>) returns (len: int)
    requires '\0' in a[..]
    modifies a
    ensures '\0' in a[..] && len == KeptLength(old(Content(a[..])))
    ensures Content(a[..]) == old(Content(a[..]))[..len]
  {
    ghost var s := Content(a[..]);
    len := CLen(a[..]) - 1;
    while len > 0 && IsSpace(a[len])
      invariant -1 <= len < |s|
      invariant forall i :: len < i < |s| ==> IsSpace(s[i])
      invariant a[..] == old(a[..])
      invariant |s| > 0 ==> len >= 0
    {
      len := len - 1;
    }
    len := len + 1;
    RightTrimmedUnique(s, len, KeptLength(s));
    a[len] := '\0';
    assert a[..len] == s[..len];
    CLenAt(a[..], len);
  }

  /** trim_string: ltrim_string, then rtrim_string, returning the final length. */
  method Trim(a: array<char>) returns (len: int)
    requires '\0' in a[..]
    modifies a
    ensures '\0' in a[..] && Content(a[..]) == Trimmed(old(Content(a[..])))
    ensures len == |Content(a[..])|
  {
    var _ := LTrim(a);
    len := RTrim(a);
  }

  // ---------------------------------------------------------------------------
  // readhex

  /** The C string read from index i on: past the end comes the terminating NUL. */
  function CharAt(s: string, i: nat): char {
    if i < |s| then s[i] else '\0'
  }

  /** The value of a hex digit in either case. */
  function HexDigit(c: char): (r: Option<nat>)
    ensures r.Some? ==> r.value < 16
  {
    if '0' <= c <= '9' then Some(c as int - '0' as int)
    else if 'a' <= c <= 'f' then Some(c as int - 'a' as int + 10)
    else if 'A' <= c <= 'F' then Some(c as int - 'A' as int + 10)
    else None
  }

  function Pow16(w: nat): (r: nat)
    ensures r >= 1
  {
    if w == 0 then 1 else 16 * Pow16(w - 1)
  }

  /** The value of the k hex digits at s[start..], most significant first; None when one
      of them is not a hex digit. */
  function HexValue(s: string, start: nat, k: nat): (r: Option<nat>)
    ensures r.Some? ==> r.value < Pow16(k)
    ensures r.None? <==> exists i :: start <= i < start + k && HexDigit(CharAt(s, i)).None?
  {
    if k == 0 then Some(0)
    else
      var high := HexValue(s, start, k - 1);
      var d := HexDigit(CharAt(s, start + k - 1));
      if high.None? || d.None? then None
      else
        assert high.value * 16 + d.value < Pow16(k) by {
          assert high.value <= Pow16(k - 1) - 1;
        }
        Some(high.value * 16 + d.value)
  }

  /** readhex(s + start, w): parse exactly w hex digits; -1 at the first non-digit. The
      shift happens in a C `int`, so w is at most 7 digits. */
  method ReadHex(s: string, start: nat, w: nat) returns (o: int)
    requires w <= 7
    ensures HexValue(s, start, w).Some? ==> o == HexValue(s, start, w).value
    ensures HexValue(s, start, w).None? ==> o == -1
  {
    o := 0;
    var i := 0;
    while i < w
      invariant 0 <= i <= w && HexValue(s, start, i) == Some(o)
    {
      o := o * 16;
      var c := CharAt(s, start + i);
      var d := HexDigit(c);
      if d.None? {
        assert HexValue(s, start, w).None? by {
          assert HexDigit(CharAt(s, start + i)).None?;
        }
        return -1;
      }
      o := o + d.value;
      i := i + 1;
    }
  }

  const HEX_LOWER: string := "0123456789abcdef"
  const HEX_UPPER: string := "0123456789ABCDEF"

  /** The w-digit hex rendering of v, in either case. */
  function ToHex(v: nat, w: nat, upper: bool): (r: string)
    ensures |r| == w
  {
    if w == 0 then []
    else ToHex(v / 16, w - 1, upper) + [(if upper then HEX_UPPER else HEX_LOWER)[v % 16]]
  }

  lemma DigitOfHex(d: nat, upper: bool)
    requires d < 16
    ensures HexDigit((if upper then HEX_UPPER else HEX_LOWER)[d]) == Some(d)
  {
  }

  /** readhex reads back any w-digit rendering, in lower or upper case, of a value below 16^w. */
  lemma {:induction false} HexRoundTrip(v: nat, w: nat, upper: bool, prefix: string, rest: string)
    requires v < Pow16(w)
    ensures HexValue(prefix + ToHex(v, w, upper) + rest, |prefix|, w) == Some(v)
  {
    if w > 0 {
      var t := prefix + ToHex(v, w, upper) + rest;
      var low := (if upper then HEX_UPPER else HEX_LOWER)[v % 16];
      assert ToHex(v, w, upper) == ToHex(v / 16, w - 1, upper) + [low];
      assert t == prefix + ToHex(v / 16, w - 1, upper) + ([low] + rest);
      DivBelow(v, 16, Pow16(w - 1));
      HexRoundTrip(v / 16, w - 1, upper, prefix, [low] + rest);
      assert CharAt(t, |prefix| + w - 1) == low;
      DigitOfHex(v % 16, upper);
    }
  }

  // ---------------------------------------------------------------------------
  // str_unescape

  predicate IsOctal(c: char) {
    '0' <= c <= '7'
  }

  /** The octal escape starting at s[i]: up to three digits, accumulated in a `char`
      (so modulo 256), and the index after the last digit. */
  function Octal(s: string, i: nat, acc: nat, left: nat): (r: (nat, nat))
    requires acc < 256
    ensures r.0 < 256 && i <= r.1 <= i + left
    ensures r.1 == i ==> r.0 == acc
    decreases left
  {
    if left == 0 || !IsOctal(CharAt(s, i)) then (acc, i)
    else Octal(s, i + 1, (acc * 8 + (s[i] as int - '0' as int)) % 256, left - 1)
  }

  /** The control character of a letter escape, `\a \b \f \n \r \t \v`. */
  function ControlEscape(c: char): Option<char> {
    if c == 'a' then Some(7 as char)
    else if c == 'b' then Some(8 as char)
    else if c == 'f' then Some(12 as char)
    else if c == 'n' then Some('\n')
    else if c == 'r' then Some('\r')
    else if c == 't' then Some('\t')
    else if c == 'v' then Some(VT)
    else None
  }

  /** One unit of the input at s[i]: the single character it writes to the output and the
      index of the next unit. */
  function Unit(s: string, i: nat): (r: (char, nat))
    requires i < |s|
    ensures i < r.1 <= |s|
  {
    if s[i] != '\\' then (s[i], i + 1)
    else
      var e := CharAt(s, i + 1);
      if IsOctal(e) then
        var o := Octal(s, i + 1, 0, 3);
        (o.0 as char, o.1)
      else if ControlEscape(e).Some? then (ControlEscape(e).value, i + 2)
      else if e == '\0' then ('\\', i + 1)
      else if e == 'x' && HexValue(s, i + 2, 2).Some? then
        assert HexValue(s, i + 2, 2).value < 256 by { assert Pow16(2) == 256; }
        (HexValue(s, i + 2, 2).value as char, i + 4)
      else (e, i + 2)
  }

  /** The output of str_unescape for the input from index i on. */
  function Unescaped(s: string, i: nat): (r: string)
    requires i <= |s|
    ensures |r| <= |s| - i
    decreases |s| - i
  {
    if i == |s| then [] else [Unit(s, i).0] + Unescaped(s, Unit(s, i).1)
  }

  /** Without a backslash the input comes back unchanged. */
  lemma {:induction false} UnescapeIdentity(s: string, i: nat)
    requires i <= |s| && '\\' !in s[i..]
    ensures Unescaped(s, i) == s[i..]
    decreases |s| - i
  {
    if i < |s| {
      assert s[i] == s[i..][0];
      assert s[i + 1..] == s[i..][1..];
      UnescapeIdentity(s, i + 1);
    }
  }

  /** The escape each character gets from `Escape`: a backslash before one of `\\ \n \r
      \t` (as its letter), and the character itself otherwise. */
  function EscapeChar(c: char): string {
    if c == '\\' then "\\\\"
    else if c == '\n' then "\\n"
    else if c == '\r' then "\\r"
    else if c == '\t' then "\\t"
    else [c]
  }

  /** A reference escaper: str_escape is not part of this model, so this is a minimal
      escaper whose output str_unescape must invert. */
  function Escape(t: string): string {
    if t == [] then [] else EscapeChar(t[0]) + Escape(t[1..])
  }

  /** Decoding is local: what follows the unit at the front does not change it. */
  lemma UnitOfEscape(c: char, rest: string)
    requires c != '\0'
    ensures Unit(EscapeChar(c) + rest, 0) == (c, |EscapeChar(c)|)
  {
    var s := EscapeChar(c) + rest;
    if c == '\\' || c == '\n' || c == '\r' || c == '\t' {
      assert s[0] == '\\' && s[1] == EscapeChar(c)[1];
    }
  }

  /** Unescaping the rest of an input after a prefix does not depend on the prefix. */
  lemma {:induction false} UnescapedShift(p: string, s: string, i: nat)
    requires i <= |s|
    ensures Unescaped(p + s, |p| + i) == Unescaped(s, i)
    decreases |s| - i
  {
    if i < |s| {
      var u := Unit(s, i);
      UnitShift(p, s, i);
      UnescapedShift(p, s, u.1);
    }
  }

  lemma UnitShift(p: string, s: string, i: nat)
    requires i < |s|
    ensures Unit(p + s, |p| + i) == (Unit(s, i).0, |p| + Unit(s, i).1)
  {
    var t := p + s;
    forall k: nat ensures CharAt(t, |p| + k) == CharAt(s, k) {
    }
    OctalShift(p, s, i + 1, 0, 3);
    HexShift(p, s, i + 2, 2);
  }

  lemma {:induction false} OctalShift(p: string, s: string, i: nat, acc: nat, left: nat)
    requires acc < 256
    ensures Octal(p + s, |p| + i, acc, left) == (Octal(s, i, acc, left).0, |p| + Octal(s, i, acc, left).1)
    decreases left
  {
    var t := p + s;
    assert CharAt(t, |p| + i) == CharAt(s, i);
    if left > 0 && IsOctal(CharAt(s, i)) {
      assert t[|p| + i] == s[i];
      OctalShift(p, s, i + 1, (acc * 8 + (s[i] as int - '0' as int)) % 256, left - 1);
    }
  }

  lemma {:induction false} HexShift(p: string, s: string, i: nat, k: nat)
    ensures HexValue(p + s, |p| + i, k) == HexValue(s, i, k)
  {
    if k > 0 {
      HexShift(p, s, i, k - 1);
      assert CharAt(p + s, |p| + i + k - 1) == CharAt(s, i + k - 1);
    }
  }

  /** str_unescape inverts the reference escaper on every string without NUL. */
  lemma {:induction false} UnescapeEscape(t: string)
    requires '\0' !in t
    ensures Unescaped(Escape(t), 0) == t
  {
    if t != [] {
      var e := EscapeChar(t[0]);
      var rest := Escape(t[1..]);
      assert Escape(t) == e + rest;
      UnitOfEscape(t[0], rest);
      UnescapedShift(e, rest, 0);
      assert t[1..] == t[1..];
      assert '\0' !in t[1..] by {
        forall k | 0 <= k < |t| - 1 ensures t[1..][k] != '\0' {
          assert t[1..][k] == t[k + 1];
        }
      }
      UnescapeEscape(t[1..]);
      assert t == [t[0]] + t[1..];
    }
  }

  /** The octal digit loop of str_unescape: `*d = *d * 8 + *s - '0'` for at most three
      digits, starting from the digit after the backslash. */
  method OctalLoop(s: string, start: nat) returns (value: int, next: nat)
    ensures (value, next) == Octal(s, start, 0, 3)
  {
    value := 0;
    next := start;
    var end := start + 3;
    while next < end && IsOctal(CharAt(s, next))
      invariant start <= next <= end && 0 <= value < 256
      invariant Octal(s, next, value, end - next) == Octal(s, start, 0, 3)
      decreases end - next
    {
      value := (value * 8 + (s[next] as int - '0' as int)) % 256;
      next := next + 1;
    }
  }

  /** The body of the str_unescape loop for the unit at s[i]: the character written and the
      index the loop continues from. */
  method UnescapeUnit(s: string, i: nat) returns (c: char, next: nat)
    requires i < |s|
    ensures (c, next) == Unit(s, i)
  {
    if s[i] != '\\' {
      return s[i], i + 1;
    }
    var e := CharAt(s, i + 1);
    if IsOctal(e) {
      var v;
      v, next := OctalLoop(s, i + 1);
      return v as char, next;
    }
    var ctl := ControlEscape(e);
    if ctl.Some? {
      return ctl.value, i + 2;
    }
    if e == '\0' {
      return '\\', i + 1;
    }
    if e == 'x' {
      var hex := ReadHex(s, i + 2, 2);
      if hex >= 0 {
        assert hex < 256 by { assert Pow16(2) == 256; }
        return hex as char, i + 4;
      }
    }
    return e, i + 2;
  }

  /** str_unescape: a zeroed output buffer one longer than the input, filled through the
      write cursor d with one character per input unit. */
  method Unescape(s: string) returns (dest: array<char>, d: nat)
    requires '\0' !in s
    ensures dest.Length == |s| + 1 && d <= |s|
    ensures dest[..d] == Unescaped(s, 0)
    ensures forall k :: d <= k < dest.Length ==> dest[k] == '\0'
  {
    dest := new char[|s| + 1](_ => '\0');
    d := 0;
    var i := 0;
    while i < |s|
      invariant 0 <= d <= i <= |s|
      invariant dest[..d] + Unescaped(s, i) == Unescaped(s, 0)
      invariant forall k :: d <= k < dest.Length ==> dest[k] == '\0'
      decreases |s| - i
    {
      var c, next := UnescapeUnit(s, i);
      dest[d] := c;
      assert dest[..d + 1] == dest[..d] + [c];
      d, i := d + 1, next;
    }
  }
}
