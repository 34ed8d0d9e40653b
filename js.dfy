/** The small part of JavaScript's built-in string library that the plugins
    rely on: `String.prototype.trim`, `parseInt(s, 10)`, `includes`/`indexOf`,
    `split` and `join` on a string separator, and the left-to-right search an
    unanchored regular expression performs. A Dafny `char` is a Unicode
    scalar value; the UTF-16 code units a JavaScript string is made of are
    not modelled, so a character outside the Basic Multilingual Plane is one
    `char` here where JavaScript counts two units. */
module Js {

  datatype Option<+T> = None | Some(value: T)

  // ---------------------------------------------------------------------
  // Character classes

  /** ECMAScript LineTerminator: what `.` in a regular expression refuses. */
  predicate IsLineTerminator(c: char) {
    c == '\n' || c == '\r' || c == '\U{2028}' || c == '\U{2029}'
  }

  /** ECMAScript WhiteSpace and LineTerminator: what `trim` strips and what
      `\s` matches. */
  predicate IsWhiteSpace(c: char) {
    || c == '\t' || c == '\U{B}' || c == '\U{C}' || c == ' '
    || c == '\U{A0}' || c == '\U{FEFF}' || c == '\U{1680}'
    || ('\U{2000}' <= c <= '\U{200A}')
    || c == '\U{202F}' || c == '\U{205F}' || c == '\U{3000}'
    || IsLineTerminator(c)
  }

  /** `\d` and the radix-10 digits of `parseInt`. */
  predicate IsDigit(c: char) { '0' <= c <= '9' }

  /** `[a-zA-Z0-9]` */
  predicate IsAlnum(c: char) { 'a' <= c <= 'z' || 'A' <= c <= 'Z' || IsDigit(c) }

  /** `\w` */
  predicate IsWordChar(c: char) { IsAlnum(c) || c == '_' }

  predicate AllWhiteSpace(s: string) {
    forall i :: 0 <= i < |s| ==> IsWhiteSpace(s[i])
  }

  // ---------------------------------------------------------------------
  // String.prototype.trim

  /** Drops the leading white space. */
  function TrimStart(s: string): (r: string)
    ensures |r| <= |s|
    ensures r == [] || !IsWhiteSpace(r[0])
  {
    if s == [] || !IsWhiteSpace(s[0]) then s else TrimStart(s[1..])
  }

  /** Drops the trailing white space. */
  function TrimEnd(s: string): (r: string)
    ensures |r| <= |s|
    ensures r == [] || !IsWhiteSpace(r[|r| - 1])
  {
    if s == [] || !IsWhiteSpace(s[|s| - 1]) then s else TrimEnd(s[..|s| - 1])
  }

  /** What `TrimStart` drops is a white-space prefix. */
  lemma {:induction false} TrimStartIsSuffix(s: string)
    ensures var r := TrimStart(s);
            r == s[|s| - |r|..] && AllWhiteSpace(s[..|s| - |r|])
    decreases |s|
  {
    if s != [] && IsWhiteSpace(s[0]) {
      var r := TrimStart(s[1..]);
      TrimStartIsSuffix(s[1..]);
      assert s[..|s| - |r|] == [s[0]] + s[1..][..|s| - 1 - |r|];
    }
  }

  /** What `TrimEnd` drops is a white-space suffix. */
  lemma {:induction false} TrimEndIsPrefix(s: string)
    ensures var r := TrimEnd(s);
            r == s[..|r|] && AllWhiteSpace(s[|r|..])
    decreases |s|
  {
    if s != [] && IsWhiteSpace(s[|s| - 1]) {
      var r := TrimEnd(s[..|s| - 1]);
      TrimEndIsPrefix(s[..|s| - 1]);
      assert s[|r|..] == s[..|s| - 1][|r|..] + [s[|s| - 1]];
    }
  }

  /** `s.trim()`: both ends stripped of white space. */
  function Trim(s: string): (r: string)
    ensures |r| <= |s|
    ensures r == [] || (!IsWhiteSpace(r[0]) && !IsWhiteSpace(r[|r| - 1]))
  {
    var t := TrimStart(s);
    TrimEndIsPrefix(t);
    TrimEnd(t)
  }

  /** What `trim` removes is white space, from the two ends only: the
      result is the text between a white-space prefix and a white-space
      suffix. */
  lemma {:induction false} TrimIsInfix(s: string)
    ensures var r := Trim(s);
            var p := |s| - |TrimStart(s)|;
            && p + |r| <= |s| && r == s[p..p + |r|]
            && AllWhiteSpace(s[..p]) && AllWhiteSpace(s[p + |r|..])
  {
    var t := TrimStart(s);
    var r := TrimEnd(t);
    var p := |s| - |t|;
    TrimStartIsSuffix(s);
    TrimEndIsPrefix(t);
    assert r == s[p..p + |r|];
    assert s[p + |r|..] == t[|r|..];
  }

  /** A string with no white space at either end is its own trim. */
  lemma {:induction false} TrimOfTrimmed(s: string)
    requires s == [] || (!IsWhiteSpace(s[0]) && !IsWhiteSpace(s[|s| - 1]))
    ensures Trim(s) == s
  {
  }

  // ---------------------------------------------------------------------
  // Decimal digits

  function DigitValue(c: char): nat
    requires IsDigit(c)
  {
    c as nat - '0' as nat
  }

  function DigitChar(d: nat): (c: char)
    requires d < 10
    ensures IsDigit(c) && DigitValue(c) == d
  {
    ('0' as nat + d) as char
  }

  predicate AllDigits(s: string) {
    forall i :: 0 <= i < |s| ==> IsDigit(s[i])
  }

  /** The number a run of decimal digits denotes, most significant first. */
  function DigitsValue(ds: string): nat
    requires AllDigits(ds)
  {
    if ds == [] then 0
    else DigitsValue(ds[..|ds| - 1]) * 10 + DigitValue(ds[|ds| - 1])
  }

  /** Length of the leading run of decimal digits. */
  function DigitRun(s: string): (n: nat)
    ensures n <= |s| && AllDigits(s[..n])
    ensures n == |s| || !IsDigit(s[n])
  {
    if s == [] || !IsDigit(s[0]) then 0
    else
      var n := 1 + DigitRun(s[1..]);
      assert s[..n] == [s[0]] + s[1..][..n - 1];
      n
  }

  /** The decimal numeral of `n`, as JavaScript prints a non-negative
      integer into a template string. */
  function Decimal(n: nat): (r: string)
    ensures |r| >= 1 && AllDigits(r)
    ensures DigitsValue(r) == n
  {
    if n < 10 then [DigitChar(n)]
    else
      var r := Decimal(n / 10) + [DigitChar(n % 10)];
      assert r[..|r| - 1] == Decimal(n / 10);
      r
  }

  // ---------------------------------------------------------------------
  // parseInt(s, 10)

  /** `parseInt(s, 10)`: skip leading white space, read an optional sign and
      the longest run of decimal digits after it; anything after the digits is
      ignored. `None` is NaN (no digit at all). Negative zero is 0. */
  function ParseInt(s: string): (r: Option<int>)
    ensures r.None? <==> DigitRun(Unsigned(TrimStart(s))) == 0
    ensures r.Some? ==>
              var u := Unsigned(TrimStart(s));
              var v: int := DigitsValue(u[..DigitRun(u)]);
              r.value == if Negative(TrimStart(s)) then -v else v
  {
    var t := TrimStart(s);
    var u := Unsigned(t);
    var n := DigitRun(u);
    if n == 0 then None
    else
      var v: int := DigitsValue(u[..n]);
      Some(if Negative(t) then -v else v)
  }

  predicate Negative(t: string) {
    |t| > 0 && t[0] == '-'
  }

  function Unsigned(t: string): string {
    if |t| > 0 && (t[0] == '+' || t[0] == '-') then t[1..] else t
  }

  /** Reading back a printed number gives the number, whatever non-digit text
      follows it: "2 please" parses as 2. */
  lemma {:induction false} ParseIntOfDecimal(n: nat, rest: string)
    requires rest == [] || !IsDigit(rest[0])
    ensures ParseInt(Decimal(n) + rest) == Some(n)
  {
    var d := Decimal(n);
    var s := d + rest;
    assert !IsWhiteSpace(s[0]) && TrimStart(s) == s;
    assert s[0] != '+' && s[0] != '-' && Unsigned(s) == s && !Negative(s);
    DigitRunOfDigits(d, rest);
    assert s[..|d|] == d;
  }

  lemma {:induction false} DigitRunOfDigits(d: string, rest: string)
    requires AllDigits(d)
    requires rest == [] || !IsDigit(rest[0])
    ensures DigitRun(d + rest) == |d|
  {
    if d != [] {
      assert (d + rest)[1..] == d[1..] + rest;
      DigitRunOfDigits(d[1..], rest);
    } else {
      assert d + rest == rest;
    }
  }

  // ---------------------------------------------------------------------
  // includes / indexOf

  /** `sub` occurs in `s` at position `i`. */
  predicate OccursAt(s: string, sub: string, i: nat) {
    i + |sub| <= |s| && s[i..i + |sub|] == sub
  }

  /** The first position at or after `from` where `sub` occurs. */
  function IndexOfFrom(s: string, sub: string, from: nat): (r: Option<nat>)
    decreases |s| - from
    ensures r.Some? ==> from <= r.value && OccursAt(s, sub, r.value)
    ensures forall j: nat :: from <= j && (r.None? || j < r.value) ==> !OccursAt(s, sub, j)
  {
    if from + |sub| > |s| then None
    else if OccursAt(s, sub, from) then Some(from)
    else IndexOfFrom(s, sub, from + 1)
  }

  /** `s.indexOf(sub)`, with -1 as `None`. */
  function IndexOf(s: string, sub: string): (r: Option<nat>)
    ensures r.Some? ==> OccursAt(s, sub, r.value)
    ensures forall j: nat :: (r.None? || j < r.value) ==> !OccursAt(s, sub, j)
  {
    IndexOfFrom(s, sub, 0)
  }

  /** `s.includes(sub)` */
  predicate Includes(s: string, sub: string) {
    IndexOf(s, sub).Some?
  }

  /** One differing (or missing) character rules out an occurrence. */
  lemma NotOccursAt(s: string, sub: string, i: nat, k: nat)
    requires k < |sub| && (i + k >= |s| || s[i + k] != sub[k])
    ensures !OccursAt(s, sub, i)
  {
    if i + |sub| <= |s| {
      assert s[i..i + |sub|][k] == s[i + k];
    }
  }

  lemma IncludesAt(s: string, sub: string, i: nat)
    requires OccursAt(s, sub, i)
    ensures Includes(s, sub)
  {
  }

  lemma NotIncludes(s: string, sub: string)
    requires forall i: nat :: !OccursAt(s, sub, i)
    ensures !Includes(s, sub)
  {
  }

  /** Text without the character `c` does not include `[c]`. */
  lemma NotIncludesChar(s: string, c: char)
    requires forall k :: 0 <= k < |s| ==> s[k] != c
    ensures !Includes(s, [c])
  {
    forall i: nat ensures !OccursAt(s, [c], i) {
      if i < |s| {
        NotOccursAt(s, [c], i, 0);
      }
    }
  }

  // ---------------------------------------------------------------------
  // split / join on a non-empty string separator

  /** `s.split(sep)`: the pieces between the successive leftmost
      occurrences of `sep`. */
  function Split(s: string, sep: string): (r: seq<string>)
    requires |sep| > 0
    decreases |s|
    ensures |r| >= 1
    ensures forall k :: 0 <= k < |r| ==> !Includes(r[k], sep)
  {
    match IndexOf(s, sep)
    case None => [s]
    case Some(i) =>
      NoEarlierOccurrence(s, sep, i);
      [s[..i]] + Split(s[i + |sep|..], sep)
  }

  lemma NoEarlierOccurrence(s: string, sep: string, i: nat)
    requires i <= |s| && |sep| > 0
    requires forall j: nat :: j < i ==> !OccursAt(s, sep, j)
    ensures !Includes(s[..i], sep)
  {
    var p := s[..i];
    if IndexOf(p, sep).Some? {
      var j := IndexOf(p, sep).value;
      assert j + |sep| <= i;
      assert s[j..j + |sep|] == p[j..j + |sep|];
      assert OccursAt(s, sep, j);
    }
  }

  /** `parts.join(sep)` */
  function Join(parts: seq<string>, sep: string): (r: string)
    ensures parts == [] ==> r == []
  {
    if parts == [] then []
    else if |parts| == 1 then parts[0]
    else parts[0] + sep + Join(parts[1..], sep)
  }

  function Last<T>(xs: seq<T>): T
    requires |xs| > 0
  {
    xs[|xs| - 1]
  }

  /** Splitting and joining with the same separator gives the text back. */
  lemma {:induction false} JoinSplit(s: string, sep: string)
    requires |sep| > 0
    ensures Join(Split(s, sep), sep) == s
    decreases |s|
  {
    match IndexOf(s, sep)
    case None =>
    case Some(i) =>
      var rest := s[i + |sep|..];
      var tail := Split(rest, sep);
      JoinSplit(rest, sep);
      var parts := [s[..i]] + tail;
      assert Split(s, sep) == parts;
      assert parts[0] == s[..i] && parts[1..] == tail;
      assert Join(parts, sep) == s[..i] + sep + Join(tail, sep);
      assert s == s[..i] + sep + rest;
  }

  /** Appending a separator and a separator-free piece adds exactly one
      piece to a single-character split. */
  lemma {:induction false} SplitAppendPiece(p: string, c: char, b: string)
    requires !Includes(b, [c])
    ensures Split(p + [c] + b, [c]) == Split(p, [c]) + [b]
    decreases |p|
  {
    var s := p + [c] + b;
    match IndexOf(p, [c])
    case None =>
      assert OccursAt(s, [c], |p|);
      forall j: nat | j < |p| ensures !OccursAt(s, [c], j) {
        assert !OccursAt(p, [c], j);
        assert s[j] == p[j];
      }
      assert IndexOf(s, [c]) == Some(|p|);
      assert s[|p| + 1..] == b;
      assert s[..|p|] == p;
      SplitOfFree(b, [c]);
    case Some(i) =>
      assert s[i] == p[i];
      assert OccursAt(s, [c], i);
      forall j: nat | j < i ensures !OccursAt(s, [c], j) {
        assert !OccursAt(p, [c], j);
        assert s[j] == p[j];
      }
      assert IndexOf(s, [c]) == Some(i);
      assert s[..i] == p[..i];
      assert s[i + 1..] == p[i + 1..] + [c] + b;
      SplitAppendPiece(p[i + 1..], c, b);
  }

  lemma SplitOfFree(b: string, sep: string)
    requires |sep| > 0 && !Includes(b, sep)
    ensures Split(b, sep) == [b]
  {
  }

  /** Splitting at the first occurrence of the separator. */
  lemma SplitAt(s: string, sep: string, i: nat)
    requires |sep| > 0 && OccursAt(s, sep, i)
    requires forall j: nat :: j < i ==> !OccursAt(s, sep, j)
    ensures Split(s, sep) == [s[..i]] + Split(s[i + |sep|..], sep)
  {
    assert IndexOf(s, sep) == Some(i);
  }

  // ---------------------------------------------------------------------
  // The leftmost match of an unanchored regular expression

  /** The least index `i` with `from <= i < to` for which `p(i)` holds: the
      position at which a regular expression without `^` first matches, when
      `p(i)` says whether it matches at `i`. */
  function FirstIndex(from: nat, to: nat, p: nat -> bool): (r: Option<nat>)
    decreases to - from
    ensures r.Some? ==> from <= r.value < to && p(r.value)
    ensures forall j :: from <= j < to && (r.None? || j < r.value) ==> !p(j)
  {
    if from >= to then None
    else if p(from) then Some(from)
    else FirstIndex(from + 1, to, p)
  }

  /** The end of the run of characters satisfying `q` that starts at `i`:
      where a greedy `q+` or `q*` stops. */
  function RunEnd(s: string, i: nat, q: char -> bool): (e: nat)
    requires i <= |s|
    decreases |s| - i
    ensures i <= e <= |s|
    ensures forall k :: i <= k < e ==> q(s[k])
    ensures e == |s| || !q(s[e])
  {
    if i == |s| || !q(s[i]) then i else RunEnd(s, i + 1, q)
  }

  // ---------------------------------------------------------------------
  // The `i` flag of a regular expression, for ASCII patterns

  function LowerAscii(c: char): char {
    if 'A' <= c <= 'Z' then (c as int + 32) as char else c
  }

  /** `s` starts with `p` when compared as the `i` flag (without `u`)
      does. For an all-ASCII `p` that is ASCII case folding: the flag never
      folds a non-ASCII character to an ASCII one. */
  predicate HasPrefixIgnoringCase(s: string, p: string) {
    |p| <= |s| && forall k :: 0 <= k < |p| ==> LowerAscii(s[k]) == LowerAscii(p[k])
  }

  lemma PrefixIgnoringCase(s: string, p: string)
    requires |p| <= |s| && s[..|p|] == p
    ensures HasPrefixIgnoringCase(s, p)
  {
    forall k | 0 <= k < |p| ensures LowerAscii(s[k]) == LowerAscii(p[k]) {
      assert s[..|p|][k] == s[k];
    }
  }

  // ---------------------------------------------------------------------
  // Numbers written and read back

  /** A number written in decimal reads back as itself under `parseInt`
      after trimming. */
  lemma {:induction false} DecimalReadsBack(k: nat)
    ensures ParseInt(Trim(Decimal(k))) == Some(k)
  {
    var d := Decimal(k);
    assert !IsWhiteSpace(d[0]) && !IsWhiteSpace(d[|d| - 1]);
    TrimOfTrimmed(d);
    ParseIntOfDecimal(k, []);
    assert d + [] == d;
  }
}
