/** Values shared by every part of the model: optional values, the tRPC error
    codes the procedures throw, JavaScript truthiness of environment strings,
    and the handful of string operations the source performs on them. */
module Common {

  datatype Option<+T> = None | Some(value: T)

  /** The tRPC error codes the modelled procedures throw. */
  datatype ErrorCode = BadRequest | Unauthorized | Forbidden | NotFound | InternalServerError

  datatype Result<+T> = Ok(value: T) | Err(code: ErrorCode)

  type UserId = string

  /** JavaScript truthiness of a possibly-undefined string: undefined and ""
      are falsy, every other string is truthy. */
  predicate Truthy(v: Option<string>) {
    v.Some? && v.value != ""
  }

  /** `v || fallback` for a possibly-undefined string. */
  function OrElse(v: Option<string>, fallback: string): string {
    if Truthy(v) then v.value else fallback
  }

  predicate StartsWith(s: string, prefix: string) {
    |prefix| <= |s| && s[..|prefix|] == prefix
  }

  /** `s.includes(t)`. */
  predicate Contains(s: string, t: string)
    decreases |s|
  {
    StartsWith(s, t) || (|s| > 0 && Contains(s[1..], t))
  }

  /** The part of `s` before the first occurrence of `c` (all of `s` when `c`
      does not occur): `s.indexOf(c)` followed by `s.slice(0, index)`. */
  function TakeUntil(s: string, c: char): (r: string)
    ensures |r| <= |s| && r == s[..|r|]
    ensures c !in r
    ensures |r| < |s| ==> s[|r|] == c
    ensures c !in s ==> r == s
  {
    if s == [] then []
    else if s[0] == c then []
    else [s[0]] + TakeUntil(s[1..], c)
  }

  /** The search for `c` passes over a prefix without `c`. */
  lemma {:induction false} TakeUntilSkips(a: string, b: string, c: char)
    requires c !in a
    ensures TakeUntil(a + b, c) == a + TakeUntil(b, c)
    decreases |a|
  {
    if a != [] {
      assert TakeUntil(a + b, c) == [a[0]] + TakeUntil(a[1..] + b, c) by {
        assert (a + b)[1..] == a[1..] + b;
      }
      assert TakeUntil(a[1..] + b, c) == a[1..] + TakeUntil(b, c) by {
        TakeUntilSkips(a[1..], b, c);
      }
      assert a == [a[0]] + a[1..];
    } else {
      assert a + b == b;
    }
  }

  lemma TakeUntilStopsAtSep(a: string, b: string, sep: char)
    requires sep !in a
    ensures TakeUntil(a + [sep] + b, sep) == a
  {
    assert a + [sep] + b == a + ([sep] + b);
    TakeUntilSkips(a, [sep] + b, sep);
  }

  /** The white space and line terminators that `String.prototype.trim`
      removes (ECMA-262, WhiteSpace and LineTerminator). */
  predicate IsJsWhitespace(c: char) {
    var n := c as int;
    n == 0x09 || n == 0x0A || n == 0x0B || n == 0x0C || n == 0x0D || n == 0x20
    || n == 0xA0 || n == 0x1680 || (0x2000 <= n <= 0x200A) || n == 0x2028
    || n == 0x2029 || n == 0x202F || n == 0x205F || n == 0x3000 || n == 0xFEFF
  }

  /** The line terminators that `.` in a regular expression does not match. */
  predicate IsLineTerminator(c: char) {
    var n := c as int;
    n == 0x0A || n == 0x0D || n == 0x2028 || n == 0x2029
  }

  function TrimStart(s: string): (r: string)
    ensures |r| <= |s| && r == s[|s| - |r|..]
    ensures r != [] ==> !IsJsWhitespace(r[0])
    ensures forall i :: 0 <= i < |s| - |r| ==> IsJsWhitespace(s[i])
  {
    if s != [] && IsJsWhitespace(s[0]) then TrimStart(s[1..]) else s
  }

  function TrimEnd(s: string): (r: string)
    ensures |r| <= |s| && r == s[..|r|]
    ensures r != [] ==> !IsJsWhitespace(r[|r| - 1])
    ensures forall i :: |r| <= i < |s| ==> IsJsWhitespace(s[i])
  {
    if s != [] && IsJsWhitespace(s[|s| - 1]) then TrimEnd(s[..|s| - 1]) else s
  }

  /** `s.trim()`. */
  function Trim(s: string): string {
    TrimEnd(TrimStart(s))
  }

  lemma TrimKeepsTrimmed(s: string)
    requires s != [] ==> !IsJsWhitespace(s[0]) && !IsJsWhitespace(s[|s| - 1])
    ensures Trim(s) == s
  {
  }

  /** The upper case of one character as `String.prototype.toUpperCase`
      gives it, for every character whose upper case holds an ASCII letter
      or digit: the ASCII letters, dotless i and long s (UnicodeData.txt),
      and the unconditional multi-character mappings of SpecialCasing.txt
      that produce one (sharp s, the Latin ligatures, and the letters whose
      upper case adds a modifier or combining mark). Every other character
      is kept as it is. */
  function UpperOf(c: char): (r: string)
    ensures 1 <= |r| <= 3
  {
    if 'a' <= c <= 'z' then [(c as int - 32) as char]
    else if c == '\U{0131}' then "I"
    else if c == '\U{017F}' then "S"
    else if c == '\U{00DF}' then "SS"
    else if c == '\U{0149}' then "\U{02BC}N"
    else if c == '\U{01F0}' then "J\U{030C}"
    else if c == '\U{1E96}' then "H\U{0331}"
    else if c == '\U{1E97}' then "T\U{0308}"
    else if c == '\U{1E98}' then "W\U{030A}"
    else if c == '\U{1E99}' then "Y\U{030A}"
    else if c == '\U{1E9A}' then "A\U{02BE}"
    else if c == '\U{FB00}' then "FF"
    else if c == '\U{FB01}' then "FI"
    else if c == '\U{FB02}' then "FL"
    else if c == '\U{FB03}' then "FFI"
    else if c == '\U{FB04}' then "FFL"
    else if c == '\U{FB05}' || c == '\U{FB06}' then "ST"
    else [c]
  }

  /** `s.toUpperCase()`: each character replaced by its upper case, which
      may be longer than one character. */
  function ToUpperCase(s: string): (r: string)
    ensures |r| >= |s|
    ensures (forall i :: 0 <= i < |s| ==> UpperOf(s[i]) == [s[i]]) ==> r == s
  {
    if s == [] then [] else UpperOf(s[0]) + ToUpperCase(s[1..])
  }

  /** Upper-casing works character by character, so it distributes over
      concatenation. */
  lemma {:induction false} ToUpperCaseAppend(a: string, b: string)
    ensures ToUpperCase(a + b) == ToUpperCase(a) + ToUpperCase(b)
    decreases |a|
  {
    if a != [] {
      assert (a + b)[1..] == a[1..] + b;
      ToUpperCaseAppend(a[1..], b);
    } else {
      assert a + b == b;
    }
  }

  /** Text whose every character upper-cases to one character upper-cases
      to those characters in order. */
  lemma {:induction false} ToUpperCaseCharwise(s: string, t: string)
    requires |s| == |t|
    requires forall i :: 0 <= i < |s| ==> UpperOf(s[i]) == [t[i]]
    ensures ToUpperCase(s) == t
    decreases |s|
  {
    if s != [] {
      ToUpperCaseCharwise(s[1..], t[1..]);
      assert t == [t[0]] + t[1..];
    }
  }

  /** Upper-casing can lengthen the text: "straße" becomes "STRASSE". */
  lemma SharpSLengthens()
    ensures ToUpperCase("stra\U{00DF}e") == "STRASSE"
  {
    assert ToUpperCase("e") == "E";
    assert ToUpperCase("\U{00DF}e") == "SSE";
  }

  function Digit(n: nat): (c: char)
    requires n < 10
    ensures '0' <= c <= '9'
  {
    "0123456789"[n]
  }

  /** `String(n)` for a non-negative integer: its decimal digits. */
  function NatToString(n: nat): (s: string)
    ensures |s| > 0
    ensures forall i :: 0 <= i < |s| ==> '0' <= s[i] <= '9'
    ensures n < 10 <==> |s| == 1
    decreases n
  {
    if n < 10 then [Digit(n)] else NatToString(n / 10) + [Digit(n % 10)]
  }

  /** A subset is no larger than its superset. */
  lemma {:induction false} SubsetCard<T>(a: set<T>, b: set<T>)
    requires a <= b
    ensures |a| <= |b|
    decreases a
  {
    if a != {} {
      var x :| x in a;
      SubsetCard(a - {x}, b - {x});
      assert b == (b - {x}) + {x};
      assert a == (a - {x}) + {x};
    }
  }
}
