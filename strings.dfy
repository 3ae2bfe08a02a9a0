/** The string operations the two generators rely on (Rust's `str` methods
    and JavaScript's `String.prototype` methods), defined over `seq<char>`
    with the properties the rest of the model needs. */
module Strings {
  import opened Wrappers

  predicate StartsWith(s: string, prefix: string)
  {
    |prefix| <= |s| && s[..|prefix|] == prefix
  }

  predicate EndsWith(s: string, suffix: string)
  {
    |suffix| <= |s| && s[|s| - |suffix|..] == suffix
  }

  /** Rust's `str::strip_prefix`. */
  function StripPrefix(s: string, prefix: string): (r: Option<string>)
    ensures r.Some? <==> StartsWith(s, prefix)
    ensures r.Some? ==> s == prefix + r.value
  {
    if StartsWith(s, prefix) then Some(s[|prefix|..]) else None
  }

  /** Rust's `str::strip_suffix`. */
  function StripSuffix(s: string, suffix: string): (r: Option<string>)
    ensures r.Some? <==> EndsWith(s, suffix)
    ensures r.Some? ==> s == r.value + suffix
  {
    if EndsWith(s, suffix) then Some(s[..|s| - |suffix|]) else None
  }

  /** Rust's `str::trim_end_matches` with a string pattern: strips the
      suffix as many times as it occurs at the end. */
  function TrimEndMatches(s: string, suffix: string): (r: string)
    requires suffix != []
    ensures !EndsWith(r, suffix)
    ensures StartsWith(s, r)
    decreases |s|
  {
    if EndsWith(s, suffix) then
      var r := TrimEndMatches(s[..|s| - |suffix|], suffix);
      assert s[..|r|] == s[..|s| - |suffix|][..|r|];
      r
    else s
  }

  /** Does `sub` occur in `s` starting at index `i`? */
  predicate OccursAt(s: string, sub: string, i: nat)
  {
    i + |sub| <= |s| && s[i..i + |sub|] == sub
  }

  /** Rust's `str::contains` with a string pattern. */
  predicate Contains(s: string, sub: string)
  {
    exists i: nat | i <= |s| :: OccursAt(s, sub, i)
  }

  /** The index of the first occurrence of `sub` in `s` at or after `from`. */
  function FindFrom(s: string, sub: string, from: nat): (r: Option<nat>)
    ensures r.Some? ==> from <= r.value && OccursAt(s, sub, r.value)
    ensures r.Some? ==> forall j: nat :: from <= j < r.value ==> !OccursAt(s, sub, j)
    ensures r.None? ==> forall j: nat :: from <= j ==> !OccursAt(s, sub, j)
    decreases |s| - from
  {
    if from + |sub| > |s| then None
    else if s[from..from + |sub|] == sub then Some(from)
    else FindFrom(s, sub, from + 1)
  }

  function Find(s: string, sub: string): (r: Option<nat>)
    ensures r.Some? ==> OccursAt(s, sub, r.value)
    ensures r.Some? ==> forall j: nat :: j < r.value ==> !OccursAt(s, sub, j)
    ensures r.None? <==> !Contains(s, sub)
  {
    FindFrom(s, sub, 0)
  }

  function Join(parts: seq<string>, sep: string): string
  {
    if |parts| == 0 then []
    else if |parts| == 1 then parts[0]
    else parts[0] + sep + Join(parts[1..], sep)
  }

  /** Rust's `str::split` with a non-empty string separator: the pieces
      between non-overlapping occurrences, scanning left to right. */
  function Split(s: string, sep: string): (r: seq<string>)
    requires sep != []
    ensures |r| >= 1
    decreases |s|
  {
    match Find(s, sep)
    case None => [s]
    case Some(i) => [s[..i]] + Split(s[i + |sep|..], sep)
  }

  /** Splitting and joining again gives back the original string. */
  lemma {:induction false} JoinSplit(s: string, sep: string)
    requires sep != []
    ensures Join(Split(s, sep), sep) == s
    decreases |s|
  {
    var f := Find(s, sep);
    if f.Some? {
      var i := f.value;
      var rest := s[i + |sep|..];
      var tail := Split(rest, sep);
      JoinSplit(rest, sep);
      assert Split(s, sep) == [s[..i]] + tail;
      assert ([s[..i]] + tail)[1..] == tail;
      assert Join([s[..i]] + tail, sep) == s[..i] + sep + Join(tail, sep);
      assert s[i..i + |sep|] == sep;
      assert s == s[..i] + s[i..i + |sep|] + rest;
    }
  }

  /** No piece of a split contains the separator. */
  lemma {:induction false} SplitPiecesFree(s: string, sep: string)
    requires sep != []
    ensures forall p :: p in Split(s, sep) ==> !Contains(p, sep)
    decreases |s|
  {
    var f := Find(s, sep);
    if f.Some? {
      var i := f.value;
      var rest := s[i + |sep|..];
      SplitPiecesFree(rest, sep);
      var head := s[..i];
      forall j: nat | j <= |head| && OccursAt(head, sep, j) ensures false {
        assert s[j..j + |sep|] == head[j..j + |sep|];
        assert OccursAt(s, sep, j);
      }
      assert Split(s, sep) == [head] + Split(rest, sep);
    }
  }

  /** The first piece of `Split(s, sep)` is the text before the first
      separator, or all of `s`. */
  function BeforeFirst(s: string, sep: string): (r: string)
    requires sep != []
    ensures r == Split(s, sep)[0]
    ensures StartsWith(s, r)
    ensures !Contains(r, sep)
  {
    SplitPiecesFree(s, sep);
    match Find(s, sep)
    case None => s
    case Some(i) => s[..i]
  }

  /** Rust's `str::split_once` with a character: the text before and
      after its first occurrence. */
  function SplitOnce(s: string, c: char): (r: Option<(string, string)>)
    ensures r.None? <==> c !in s
    ensures r.Some? ==> s == r.value.0 + [c] + r.value.1 && c !in r.value.0
  {
    if c !in s then None
    else if s[0] == c then Some(([], s[1..]))
    else
      var rest := SplitOnce(s[1..], c);
      Some(([s[0]] + rest.value.0, rest.value.1))
  }

  /** Rust's `char::is_ascii_whitespace`: space, tab, line feed, form feed,
      carriage return. */
  predicate IsAsciiWhitespace(c: char)
  {
    c == ' ' || c == '\t' || c == '\n' || c == '\U{000C}' || c == '\r'
  }

  /** Rust's `char::is_whitespace` (the Unicode White_Space property),
      used by `str::trim`. */
  predicate IsRustWhitespace(c: char)
  {
    ('\U{0009}' <= c <= '\U{000D}') || c == ' ' || c == '\U{0085}' || c == '\U{00A0}'
    || c == '\U{1680}' || ('\U{2000}' <= c <= '\U{200A}') || c == '\U{2028}'
    || c == '\U{2029}' || c == '\U{202F}' || c == '\U{205F}' || c == '\U{3000}'
  }

  /** The characters JavaScript's `String.prototype.trim` removes: the
      WhiteSpace and LineTerminator productions of ECMAScript. */
  predicate IsJsWhitespace(c: char)
  {
    ('\U{0009}' <= c <= '\U{000D}') || c == ' ' || c == '\U{00A0}' || c == '\U{1680}'
    || ('\U{2000}' <= c <= '\U{200A}') || c == '\U{2028}' || c == '\U{2029}'
    || c == '\U{202F}' || c == '\U{205F}' || c == '\U{3000}' || c == '\U{FEFF}'
  }

  function TrimStart(s: string, ws: char -> bool): (r: string)
    ensures |r| <= |s| && r == s[|s| - |r|..]
    ensures r != [] ==> !ws(r[0])
    ensures forall i :: 0 <= i < |s| - |r| ==> ws(s[i])
  {
    if s != [] && ws(s[0]) then TrimStart(s[1..], ws) else s
  }

  function TrimEnd(s: string, ws: char -> bool): (r: string)
    ensures |r| <= |s| && r == s[..|r|]
    ensures r != [] ==> !ws(r[|r| - 1])
    ensures forall i :: |r| <= i < |s| ==> ws(s[i])
  {
    if s != [] && ws(s[|s| - 1]) then TrimEnd(s[..|s| - 1], ws) else s
  }

  /** Strips leading and trailing characters satisfying `ws`. */
  function Trim(s: string, ws: char -> bool): (r: string)
    ensures r == [] || (!ws(r[0]) && !ws(r[|r| - 1]))
    ensures |r| <= |s|
    ensures (s == [] || (!ws(s[0]) && !ws(s[|s| - 1]))) ==> r == s
  {
    TrimEnd(TrimStart(s, ws), ws)
  }

  /** Trimming twice is trimming once. */
  lemma TrimIdempotent(s: string, ws: char -> bool)
    ensures Trim(Trim(s, ws), ws) == Trim(s, ws)
  {
  
  }

  /** Rust's `str::trim`. */
  function RustTrim(s: string): string
  {
    Trim(s, IsRustWhitespace)
  }

  /** JavaScript's `String.prototype.trim`. */
  function JsTrim(s: string): string
  {
    Trim(s, IsJsWhitespace)
  }

  /** Rust's `split_ascii_whitespace`: the maximal runs of
      non-whitespace characters, left to right. */
  function SplitAsciiWhitespace(s: string): (r: seq<string>)
    ensures forall t :: t in r ==> t != [] && forall c :: c in t ==> !IsAsciiWhitespace(c)
    decreases |s|
  {
    var t := TrimStart(s, IsAsciiWhitespace);
    if t == [] then []
    else
      var w := TakeWord(t);
      [w] + SplitAsciiWhitespace(t[|w|..])
  }

  /** The longest prefix of `s` without ASCII whitespace. */
  function TakeWord(s: string): (r: string)
    ensures |r| <= |s| && r == s[..|r|]
    ensures forall c :: c in r ==> !IsAsciiWhitespace(c)
    ensures |r| < |s| ==> IsAsciiWhitespace(s[|r|])
    ensures s != [] && !IsAsciiWhitespace(s[0]) ==> r != []
  {
    if s == [] || IsAsciiWhitespace(s[0]) then [] else [s[0]] + TakeWord(s[1..])
  }

  /** Rust's `char::to_ascii_lowercase`. */
  function ToAsciiLower(c: char): (r: char)
  {
    if 'A' <= c <= 'Z' then (c as int + 32) as char else c
  }

  /** Lower-cases every ASCII letter; JavaScript's `toLowerCase` on ASCII text. */
  function AsciiLowercase(s: string): (r: string)
    ensures |r| == |s|
    ensures forall i :: 0 <= i < |s| ==> r[i] == ToAsciiLower(s[i])
  {
    if s == [] then [] else [ToAsciiLower(s[0])] + AsciiLowercase(s[1..])
  }

  /** The first character ASCII-lower-cased, the rest unchanged (the
      `enumerate().map(...)` in the XSD element readers). */
  function LowerFirst(s: string): (r: string)
    ensures |r| == |s|
    ensures s != [] ==> r[0] == ToAsciiLower(s[0]) && r[1..] == s[1..]
  {
    if s == [] then [] else [ToAsciiLower(s[0])] + s[1..]
  }

  /** Rust's `str::eq_ignore_ascii_case`. */
  predicate EqIgnoreAsciiCase(a: string, b: string)
  {
    |a| == |b| && forall i :: 0 <= i < |a| ==> ToAsciiLower(a[i]) == ToAsciiLower(b[i])
  }

  /** Rust's `str::replacen(c, r, 1)` for a single character `c`. */
  function ReplaceFirst(s: string, c: char, r: string): (out: string)
    ensures c !in s ==> out == s
    ensures c in s ==> exists i :: 0 <= i < |s| && s[i] == c && c !in s[..i] && out == s[..i] + r + s[i + 1..]
  {
    match SplitOnce(s, c)
    case None => s
    case Some((before, after)) =>
      assert s[|before|] == c && s[..|before|] == before && s[|before| + 1..] == after;
      before + r + after
  }
}
