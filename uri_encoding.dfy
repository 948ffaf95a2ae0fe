/** `encodeURIComponent` (ECMA-262, section 19.2.6.5) and the
    `encodeURIComponentPath` helper the backend builds object URLs with: the key
    is split at `/`, every segment is percent-encoded on its own, and the
    segments are joined again with `/`. */
module UriEncoding {
  import opened Common

  /** The characters `encodeURIComponent` copies unchanged: ASCII letters and
      digits and `- _ . ! ~ * ' ( )`. */
  predicate IsUnreserved(c: char) {
    ('A' <= c <= 'Z') || ('a' <= c <= 'z') || ('0' <= c <= '9')
    || c == '-' || c == '_' || c == '.' || c == '!' || c == '~'
    || c == '*' || c == '\'' || c == '(' || c == ')'
  }

  predicate AllUnreserved(s: string) {
    forall i :: 0 <= i < |s| ==> IsUnreserved(s[i])
  }

  /** Characters an encoded string is made of: unreserved characters and the
      `%` that introduces an escape (whose two upper-case hex digits are
      unreserved as well). */
  predicate IsEncodedChar(c: char) {
    IsUnreserved(c) || c == '%'
  }

  const HexDigits: string := "0123456789ABCDEF"

  /** The UTF-8 encoding of one Unicode scalar value. */
  function Utf8(c: char): (bytes: seq<int>)
    ensures 1 <= |bytes| <= 4
    ensures forall i :: 0 <= i < |bytes| ==> 0 <= bytes[i] < 256
    ensures |bytes| == 1 <==> c as int < 0x80
  {
    var n := c as int;
    if n < 0x80 then [n]
    else if n < 0x800 then [0xC0 + n / 64, 0x80 + n % 64]
    else if n < 0x10000 then [0xE0 + n / 4096, 0x80 + (n / 64) % 64, 0x80 + n % 64]
    else [0xF0 + n / 262144, 0x80 + (n / 4096) % 64, 0x80 + (n / 64) % 64, 0x80 + n % 64]
  }

  /** `%XY` for one byte, with upper-case hex digits. */
  function Escape(b: int): (r: string)
    requires 0 <= b < 256
    ensures |r| == 3 && r[0] == '%'
    ensures forall i :: 0 <= i < 3 ==> IsEncodedChar(r[i])
  {
    ['%', HexDigits[b / 16], HexDigits[b % 16]]
  }

  function EscapeAll(bytes: seq<int>): (r: string)
    requires forall i :: 0 <= i < |bytes| ==> 0 <= bytes[i] < 256
    ensures |r| == 3 * |bytes|
    ensures forall i :: 0 <= i < |r| ==> IsEncodedChar(r[i])
  {
    if bytes == [] then [] else Escape(bytes[0]) + EscapeAll(bytes[1..])
  }

  /** One character as `encodeURIComponent` writes it. */
  function EncodeChar(c: char): (r: string)
    ensures forall i :: 0 <= i < |r| ==> IsEncodedChar(r[i])
    ensures IsUnreserved(c) ==> r == [c]
    ensures !IsUnreserved(c) ==> 3 <= |r| <= 12 && r[0] == '%'
  {
    if IsUnreserved(c) then [c] else EscapeAll(Utf8(c))
  }

  /** `encodeURIComponent(s)`. Dafny characters are Unicode scalar values, so
      the lone surrogates on which JavaScript throws `URIError` cannot occur. */
  function EncodeURIComponent(s: string): (r: string)
    ensures forall i :: 0 <= i < |r| ==> IsEncodedChar(r[i])
    ensures '/' !in r
    ensures |r| >= |s|
    ensures |r| == |s| <==> AllUnreserved(s)
  {
    if s == [] then []
    else
      var rest := EncodeURIComponent(s[1..]);
      assert AllUnreserved(s) <==> IsUnreserved(s[0]) && AllUnreserved(s[1..]) by {
        if IsUnreserved(s[0]) && AllUnreserved(s[1..]) {
          forall i | 0 <= i < |s| ensures IsUnreserved(s[i]) {
            if i > 0 { assert s[i] == s[1..][i - 1]; }
          }
        }
      }
      assert !IsEncodedChar('/');
      EncodeChar(s[0]) + rest
  }

  lemma {:induction false} EncodeUnreservedIsIdentity(s: string)
    requires AllUnreserved(s)
    ensures EncodeURIComponent(s) == s
    decreases |s|
  {
    if s != [] {
      assert AllUnreserved(s[1..]) by {
        forall i | 0 <= i < |s[1..]| ensures IsUnreserved(s[1..][i]) {
          assert s[1..][i] == s[i + 1];
        }
      }
      EncodeUnreservedIsIdentity(s[1..]);
      assert s == [s[0]] + s[1..];
    }
  }

  /** Number of occurrences of `c` in `s`. */
  function Occurrences(s: string, c: char): nat {
    if s == [] then 0 else (if s[0] == c then 1 else 0) + Occurrences(s[1..], c)
  }

  /** `s.split(sep)` for a one-character separator: never empty, and the
      pieces contain no separator. */
  function Split(s: string, sep: char): (parts: seq<string>)
    ensures |parts| >= 1
    ensures forall i :: 0 <= i < |parts| ==> sep !in parts[i]
    decreases |s|
  {
    var head := TakeUntil(s, sep);
    if |head| == |s| then [s] else [head] + Split(s[|head| + 1..], sep)
  }

  /** `parts.join(sep)`. */
  function Join(parts: seq<string>, sep: char): string {
    if parts == [] then ""
    else if |parts| == 1 then parts[0]
    else parts[0] + [sep] + Join(parts[1..], sep)
  }

  lemma {:induction false} OccurrencesAppend(a: string, b: string, c: char)
    ensures Occurrences(a + b, c) == Occurrences(a, c) + Occurrences(b, c)
    decreases |a|
  {
    if a != [] {
      assert (a + b)[1..] == a[1..] + b;
      OccurrencesAppend(a[1..], b, c);
    } else {
      assert a + b == b;
    }
  }

  lemma {:induction false} OccurrencesAbsent(s: string, c: char)
    requires c !in s
    ensures Occurrences(s, c) == 0
    decreases |s|
  {
    if s != [] { OccurrencesAbsent(s[1..], c); }
  }

  /** One step of `Split`: the piece before the first separator, then the
      split of what follows it. */
  lemma SplitStep(s: string, sep: char)
    requires sep in s
    ensures var head := TakeUntil(s, sep);
      |head| < |s| && s == head + [sep] + s[|head| + 1..]
      && Split(s, sep) == [head] + Split(s[|head| + 1..], sep)
  {
    var head := TakeUntil(s, sep);
    assert |head| < |s|;
    assert s == head + [sep] + s[|head| + 1..];
  }

  lemma SplitNoSep(s: string, sep: char)
    requires sep !in s
    ensures Split(s, sep) == [s]
  {
  }

  /** Joining the pieces of a split gives back the original string. */
  lemma {:induction false} JoinSplit(s: string, sep: char)
    ensures Join(Split(s, sep), sep) == s
    decreases |s|
  {
    if sep in s {
      var head := TakeUntil(s, sep);
      var tail := s[|head| + 1..];
      SplitStep(s, sep);
      JoinSplit(tail, sep);
      JoinCons(head, Split(tail, sep), sep);
    } else {
      SplitNoSep(s, sep);
    }
  }

  /** Splitting a join of separator-free pieces gives back the pieces. */
  lemma {:induction false} SplitJoin(parts: seq<string>, sep: char)
    requires |parts| >= 1
    requires forall i :: 0 <= i < |parts| ==> sep !in parts[i]
    ensures Split(Join(parts, sep), sep) == parts
    decreases |parts|
  {
    var s := Join(parts, sep);
    if |parts| == 1 {
      SplitNoSep(s, sep);
    } else {
      var tail := Join(parts[1..], sep);
      assert s == parts[0] + [sep] + tail;
      assert TakeUntil(s, sep) == parts[0] by {
        TakeUntilStopsAtSep(parts[0], tail, sep);
      }
      assert sep in s by {
        assert s[|parts[0]|] == sep;
      }
      SplitStep(s, sep);
      assert s[|parts[0]| + 1..] == tail;
      SplitJoin(parts[1..], sep);
      assert parts == [parts[0]] + parts[1..];
    }
  }

  /** A string splits into one more piece than it has separators. */
  lemma {:induction false} SplitCount(s: string, sep: char)
    ensures |Split(s, sep)| == Occurrences(s, sep) + 1
    decreases |s|
  {
    if sep in s {
      var head := TakeUntil(s, sep);
      var tail := s[|head| + 1..];
      assert |Split(s, sep)| == |Split(tail, sep)| + 1 && s == head + ([sep] + tail) by {
        SplitStep(s, sep);
      }
      assert |Split(tail, sep)| == Occurrences(tail, sep) + 1 by {
        SplitCount(tail, sep);
      }
      assert Occurrences(s, sep) == Occurrences(tail, sep) + 1 by {
        OccurrencesAbsent(head, sep);
        OccurrencesAppend(head, [sep] + tail, sep);
        assert ([sep] + tail)[1..] == tail;
      }
    } else {
      SplitNoSep(s, sep);
      OccurrencesAbsent(s, sep);
    }
  }

  function EncodeSegments(parts: seq<string>): (r: seq<string>)
    ensures |r| == |parts|
    ensures forall i :: 0 <= i < |parts| ==> r[i] == EncodeURIComponent(parts[i])
  {
    if parts == [] then [] else [EncodeURIComponent(parts[0])] + EncodeSegments(parts[1..])
  }

  /** `encodeURIComponentPath(path)`: each `/`-separated segment percent-encoded. */
  function EncodeURIComponentPath(path: string): string {
    Join(EncodeSegments(Split(path, '/')), '/')
  }

  /** The encoded path has exactly the segments of the original, each
      encoded, so it has as many segments and as many `/`. */
  lemma EncodePathSegments(path: string)
    ensures Split(EncodeURIComponentPath(path), '/') == EncodeSegments(Split(path, '/'))
    ensures |Split(EncodeURIComponentPath(path), '/')| == |Split(path, '/')|
    ensures Occurrences(EncodeURIComponentPath(path), '/') == Occurrences(path, '/')
  {
    var segments := EncodeSegments(Split(path, '/'));
    SplitJoin(segments, '/');
    SplitCount(path, '/');
    SplitCount(EncodeURIComponentPath(path), '/');
  }

  lemma EncodeSegmentsCons(x: string, rest: seq<string>)
    ensures EncodeSegments([x] + rest) == [EncodeURIComponent(x)] + EncodeSegments(rest)
  {
    assert ([x] + rest)[1..] == rest;
  }

  lemma JoinCons(x: string, rest: seq<string>, sep: char)
    requires |rest| >= 1
    ensures Join([x] + rest, sep) == x + [sep] + Join(rest, sep)
  {
    assert ([x] + rest)[1..] == rest;
  }

  predicate IsPlainPath(path: string) {
    forall i :: 0 <= i < |path| ==> IsUnreserved(path[i]) || path[i] == '/'
  }

  /** A path made of unreserved characters and `/` is left as it is. */
  lemma {:induction false} EncodePlainPathIsIdentity(path: string)
    requires IsPlainPath(path)
    ensures EncodeURIComponentPath(path) == path
    decreases |path|
  {
    if '/' in path {
      var head := TakeUntil(path, '/');
      var tail := path[|head| + 1..];
      var rest := Split(tail, '/');
      assert Split(path, '/') == [head] + rest && path == head + ['/'] + tail by {
        SplitStep(path, '/');
      }
      assert EncodeURIComponent(head) == head by {
        assert AllUnreserved(head) by {
          forall i | 0 <= i < |head| ensures IsUnreserved(head[i]) {
            assert head[i] == path[i];
          }
        }
        EncodeUnreservedIsIdentity(head);
      }
      assert Join(EncodeSegments(rest), '/') == tail by {
        assert IsPlainPath(tail) by {
          forall i | 0 <= i < |tail| ensures IsUnreserved(tail[i]) || tail[i] == '/' {
            assert tail[i] == path[|head| + 1 + i];
          }
        }
        EncodePlainPathIsIdentity(tail);
      }
      assert EncodeSegments([head] + rest) == [head] + EncodeSegments(rest) by {
        EncodeSegmentsCons(head, rest);
      }
      assert Join([head] + EncodeSegments(rest), '/') == head + ['/'] + tail by {
        JoinCons(head, EncodeSegments(rest), '/');
      }
      assert EncodeURIComponentPath(path) == Join(EncodeSegments([head] + rest), '/');
    } else {
      SplitNoSep(path, '/');
      assert AllUnreserved(path);
      EncodeUnreservedIsIdentity(path);
    }
  }
}
