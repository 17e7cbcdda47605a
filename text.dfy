/** The pieces of Python's `str` that the OCR extractors rely on: whitespace and
    digit classes, `lower`, `strip`, `split`, `in`, `replace`, slicing, and the
    shared line tokeniser (`[l.strip() for l in text.split('\n') if l.strip()]`). */
module OcrText {

  datatype Option<T> = None | Some(value: T)

  /** Python's `str.isspace`, which is also what `\s` matches in a `str` pattern. */
  predicate IsSpace(c: char) {
    ('\t' <= c <= '\r') || ('\U{1C}' <= c <= ' ') || c == '\U{85}' || c == '\U{A0}'
    || c == '\U{1680}' || ('\U{2000}' <= c <= '\U{200A}') || c == '\U{2028}'
    || c == '\U{2029}' || c == '\U{202F}' || c == '\U{205F}' || c == '\U{3000}'
  }

  /** `\d`, restricted to the ASCII digits. */
  predicate IsDigit(c: char) { '0' <= c <= '9' }

  predicate IsAsciiLetter(c: char) { 'a' <= c <= 'z' || 'A' <= c <= 'Z' }

  /** `\w` over the Latin scripts: letters and digits of ASCII, Latin-1 and Latin
      Extended-A/B, the Latin-1 superscripts and fractions, and `_`. */
  predicate IsWordChar(c: char) {
    IsAsciiLetter(c) || IsDigit(c) || c == '_'
    || c == '\U{AA}' || c == '\U{B2}' || c == '\U{B3}' || c == '\U{B5}' || c == '\U{B9}'
    || c == '\U{BA}' || ('\U{BC}' <= c <= '\U{BE}')
    || ('\U{C0}' <= c <= '\U{24F}' && c != '\U{D7}' && c != '\U{F7}')
  }

  /** Capital letters of ASCII and Latin-1, the ones `Lower` maps. */
  predicate IsUpperCase(c: char) {
    ('A' <= c <= 'Z') || ('\U{C0}' <= c <= '\U{DE}' && c != '\U{D7}')
  }

  /** `str.lower` on one character of ASCII or Latin-1. */
  function Lower(c: char): char {
    if IsUpperCase(c) then (c as int + 32) as char else c
  }

  function LowerStr(s: string): (r: string)
    ensures |r| == |s|
    ensures forall i :: 0 <= i < |s| ==> r[i] == Lower(s[i])
  {
    seq(|s|, i requires 0 <= i < |s| => Lower(s[i]))
  }

  /** The end of the longest run of characters satisfying `P` that starts at `i`. */
  function RunEnd(s: string, i: nat, P: char -> bool): (r: nat)
    requires i <= |s|
    ensures i <= r <= |s|
    decreases |s| - i
  {
    if i == |s| || !P(s[i]) then i else RunEnd(s, i + 1, P)
  }

  /** The run is maximal: every character in it satisfies `P`, and the one after
      it, if any, does not. */
  lemma {:induction false} RunEndSpec(s: string, i: nat, P: char -> bool)
    requires i <= |s|
    ensures var r := RunEnd(s, i, P);
      (forall k :: i <= k < r ==> P(s[k])) && (r < |s| ==> !P(s[r]))
    decreases |s| - i
  {
    if i < |s| && P(s[i]) {
      RunEndSpec(s, i + 1, P);
    }
  }

  /** The index just past the last non-whitespace character, 0 when there is none. */
  function TrailEnd(s: string): (r: nat)
    ensures r <= |s|
  {
    if s == [] || !IsSpace(s[|s| - 1]) then |s| else TrailEnd(s[..|s| - 1])
  }

  /** Only whitespace follows `TrailEnd`, and the character before it is not
      whitespace. */
  lemma {:induction false} TrailEndSpec(s: string)
    ensures var r := TrailEnd(s);
      (forall k :: r <= k < |s| ==> IsSpace(s[k])) && (r > 0 ==> !IsSpace(s[r - 1]))
  {
    if s != [] && IsSpace(s[|s| - 1]) {
      TrailEndSpec(s[..|s| - 1]);
    }
  }

  /** `str.strip()`: the slice between the leading and the trailing whitespace. */
  function Strip(s: string): (r: string)
    ensures |r| <= |s|
  {
    var lo := RunEnd(s, 0, IsSpace);
    RunEndSpec(s, 0, IsSpace);
    TrailEndSpec(s);
    if lo == |s| then "" else s[lo..TrailEnd(s)]
  }

  /** The stripped text is blank exactly when the text is all whitespace; it
      neither starts nor ends with whitespace, and it holds only characters of
      the text. */
  lemma StripSpec(s: string)
    ensures var r := Strip(s);
      (r == "" <==> forall k :: 0 <= k < |s| ==> IsSpace(s[k]))
      && (r != "" ==> !IsSpace(r[0]) && !IsSpace(r[|r| - 1]))
      && (forall c :: c in r ==> c in s)
      && exists lo, hi :: 0 <= lo <= hi <= |s| && r == s[lo..hi]
           && (forall k :: 0 <= k < lo ==> IsSpace(s[k]))
           && (forall k :: hi <= k < |s| ==> IsSpace(s[k]))
  {
    RunEndSpec(s, 0, IsSpace);
    TrailEndSpec(s);
    var lo := RunEnd(s, 0, IsSpace);
    if lo == |s| {
      assert Strip(s) == s[lo..lo];
    } else {
      assert Strip(s) == s[lo..TrailEnd(s)];
    }
  }

  lemma StripIdempotent(s: string)
    ensures Strip(Strip(s)) == Strip(s)
  {
    var r := Strip(s);
    StripSpec(s);
    if r != "" {
      assert RunEnd(r, 0, IsSpace) == 0;
      assert TrailEnd(r) == |r|;
    }
  }

  /** Python's `sub in s` for strings. */
  predicate Contains(s: string, sub: string)
    decreases |s|
  {
    sub <= s || (s != [] && Contains(s[1..], sub))
  }

  /** `s.startswith(p)`. */
  predicate StartsWith(s: string, p: string) { p <= s }

  /** The index of the first `c` in `s`. */
  function IndexOf(s: string, c: char): (r: Option<nat>)
    ensures r.Some? ==> r.value < |s| && s[r.value] == c
    ensures r.Some? ==> forall j :: 0 <= j < r.value ==> s[j] != c
    ensures r.None? <==> c !in s
  {
    if s == [] then None
    else if s[0] == c then Some(0)
    else match IndexOf(s[1..], c)
      case None => None
      case Some(k) => Some(k + 1)
  }

  /** `s.split(sep)` for a one-character separator. */
  function Split(s: string, sep: char): (r: seq<string>)
    ensures |r| >= 1
    ensures forall k :: 0 <= k < |r| ==> sep !in r[k]
    decreases |s|
  {
    match IndexOf(s, sep)
    case None => [s]
    case Some(k) =>
      assert forall j :: 0 <= j < k ==> s[..k][j] != sep;
      [s[..k]] + Split(s[k + 1..], sep)
  }

  /** `sep.join(parts)`. */
  function Join(parts: seq<string>, sep: char): string
    requires |parts| >= 1
  {
    if |parts| == 1 then parts[0] else parts[0] + [sep] + Join(parts[1..], sep)
  }

  /** Splitting loses nothing: joining the pieces with the separator gives the text back. */
  lemma {:induction false} SplitJoin(s: string, sep: char)
    ensures Join(Split(s, sep), sep) == s
    decreases |s|
  {
    match IndexOf(s, sep)
    case None =>
    case Some(k) =>
      SplitJoin(s[k + 1..], sep);
      assert Split(s, sep)[1..] == Split(s[k + 1..], sep);
      assert s == s[..k] + [sep] + s[k + 1..];
  }

  /** `s.split(sep, 1)`: the text before the first separator and, when there is
      one, the text after it. */
  function SplitOnce(s: string, sep: char): (r: seq<string>)
    ensures |r| == if sep in s then 2 else 1
    ensures sep in s ==> r[0] + [sep] + r[1] == s && sep !in r[0]
    ensures sep !in s ==> r == [s]
  {
    match IndexOf(s, sep)
    case None => [s]
    case Some(k) =>
      assert s == s[..k] + [sep] + s[k + 1..];
      assert forall j :: 0 <= j < k ==> s[..k][j] != sep;
      [s[..k], s[k + 1..]]
  }

  /** Python's `xs[:n]`. */
  function Take<T>(xs: seq<T>, n: nat): (r: seq<T>)
    ensures |r| <= n && r <= xs
    ensures |xs| <= n ==> r == xs
    ensures |xs| > n ==> |r| == n
  {
    if |xs| <= n then xs else xs[..n]
  }

  /** `s.replace(key, val)`: every non-overlapping occurrence, left to right; an
      empty `key` inserts `val` around every character, as Python does. */
  function ReplaceAll(s: string, key: string, val: string): string
    decreases |s|
  {
    if key == "" then (if s == [] then val else val + [s[0]] + ReplaceAll(s[1..], key, val))
    else if s == [] then []
    else if key <= s then val + ReplaceAll(s[|key|..], key, val)
    else [s[0]] + ReplaceAll(s[1..], key, val)
  }

  /** The trimmed, non-blank lines of a list, in order. */
  function Clean(raw: seq<string>): (r: seq<string>)
    ensures |r| <= |raw|
    ensures forall k :: 0 <= k < |r| ==> r[k] != "" && Strip(r[k]) == r[k]
  {
    if raw == [] then []
    else
      var t := Strip(raw[0]);
      StripIdempotent(raw[0]);
      (if t == "" then [] else [t]) + Clean(raw[1..])
  }

  /** Every cleaned line is the stripped form of some raw line. */
  lemma {:induction false} CleanFromRaw(raw: seq<string>, k: nat)
    requires k < |Clean(raw)|
    ensures exists j :: 0 <= j < |raw| && Clean(raw)[k] == Strip(raw[j])
  {
    var t := Strip(raw[0]);
    var head: seq<string> := if t == "" then [] else [t];
    var tail := Clean(raw[1..]);
    assert Clean(raw) == head + tail;
    if k < |head| {
      assert Clean(raw)[k] == t;
    } else {
      CleanFromRaw(raw[1..], k - |head|);
      var j :| 0 <= j < |raw| - 1 && tail[k - |head|] == Strip(raw[1..][j]);
      assert Clean(raw)[k] == tail[k - |head|];
      assert raw[1..][j] == raw[j + 1];
    }
  }

  /** Cleaning distributes over concatenation. */
  lemma {:induction false} CleanAppend(a: seq<string>, b: seq<string>)
    ensures Clean(a + b) == Clean(a) + Clean(b)
    decreases |a|
  {
    if a != [] {
      assert (a + b)[0] == a[0] && (a + b)[1..] == a[1..] + b;
      CleanAppend(a[1..], b);
    } else {
      assert a + b == b;
    }
  }

  /** Line `j` survives cleaning, trimmed, exactly when it is not blank, and it
      lands between the cleaned lines before it and those after it: cleaning
      keeps every non-blank line, in order. */
  lemma CleanAt(raw: seq<string>, j: nat)
    requires j < |raw|
    ensures Clean(raw) == Clean(raw[..j])
                          + (if Strip(raw[j]) == "" then [] else [Strip(raw[j])])
                          + Clean(raw[j + 1..])
    ensures Strip(raw[j]) != "" ==> Clean(raw)[|Clean(raw[..j])|] == Strip(raw[j])
  {
    var pre, line, post := raw[..j], [raw[j]], raw[j + 1..];
    var mid: seq<string> := if Strip(raw[j]) == "" then [] else [Strip(raw[j])];
    assert raw == pre + (line + post);
    CleanAppend(pre, line + post);
    CleanAppend(line, post);
    assert line[1..] == [];
    assert Clean(line) == mid;
    assert Clean(raw) == Clean(pre) + mid + Clean(post);
  }

  /** The line tokeniser shared by the sender and recipient extractors. */
  function CleanLines(text: string): seq<string> {
    Clean(Split(text, '\n'))
  }

  /** The index of the first line satisfying `P`. */
  function FirstLine(lines: seq<string>, P: string -> bool): (r: Option<nat>)
    ensures r.Some? ==> r.value < |lines|
  {
    if lines == [] then None
    else if P(lines[0]) then Some(0)
    else match FirstLine(lines[1..], P)
      case None => None
      case Some(k) => Some(k + 1)
  }

  /** The loop `for i, line in enumerate(lines): if P(line): return i`. */
  method FindFirstLine(lines: seq<string>, P: string -> bool) returns (r: Option<nat>)
    ensures r == FirstLine(lines, P)
  {
    for i := 0 to |lines|
      invariant forall j :: 0 <= j < i ==> !P(lines[j])
    {
      if P(lines[i]) {
        FirstLineAt(lines, P, i);
        return Some(i);
      }
    }
    FirstLineSpec(lines, P);
    return None;
  }

  /** `FirstLine` finds a line satisfying `P`, and none before it, or else
      there is none at all. */
  lemma {:induction false} FirstLineSpec(lines: seq<string>, P: string -> bool)
    ensures var r := FirstLine(lines, P);
      (r.Some? ==> P(lines[r.value]) && forall j :: 0 <= j < r.value ==> !P(lines[j]))
      && (r.None? ==> forall j :: 0 <= j < |lines| ==> !P(lines[j]))
  {
    if lines != [] && !P(lines[0]) {
      FirstLineSpec(lines[1..], P);
      assert forall j :: 0 < j < |lines| ==> lines[1..][j - 1] == lines[j];
    }
  }

  /** A line satisfying `P` with none before it is the first one. */
  lemma {:induction false} FirstLineAt(lines: seq<string>, P: string -> bool, i: nat)
    requires i < |lines| && P(lines[i])
    requires forall j :: 0 <= j < i ==> !P(lines[j])
    ensures FirstLine(lines, P) == Some(i)
  {
    if i > 0 {
      FirstLineAt(lines[1..], P, i - 1);
    }
  }

  /** True when some string of `words` occurs in `s`: `any(w in s for w in words)`. */
  predicate ContainsAny(s: string, words: seq<string>) {
    words != [] && (Contains(s, words[0]) || ContainsAny(s, words[1..]))
  }

  /** `ContainsAny` holds exactly when one of the words occurs. */
  lemma {:induction false} ContainsAnyIff(s: string, words: seq<string>)
    ensures ContainsAny(s, words) <==> exists k :: 0 <= k < |words| && Contains(s, words[k])
  {
    if words != [] {
      ContainsAnyIff(s, words[1..]);
      assert forall k :: 0 < k < |words| ==> words[1..][k - 1] == words[k];
    }
  }

  /** The first outcome from `k` on that holds a value. */
  function FirstSome<T>(xs: seq<Option<T>>, k: nat): Option<T>
    decreases |xs| - k
  {
    if k >= |xs| then None
    else if xs[k].Some? then xs[k]
    else FirstSome(xs, k + 1)
  }

  /** The result holds a value exactly when some outcome does, and it is the
      first one: an outcome without a value passes the turn to the next. */
  lemma {:induction false} FirstSomeIsFirst<T>(xs: seq<Option<T>>, k: nat)
    requires k <= |xs|
    ensures FirstSome(xs, k).Some? ==>
              exists i :: k <= i < |xs| && xs[i] == FirstSome(xs, k)
                && forall j :: k <= j < i ==> xs[j].None?
    ensures FirstSome(xs, k).None? <==> forall i :: k <= i < |xs| ==> xs[i].None?
    decreases |xs| - k
  {
    if k < |xs| {
      FirstSomeIsFirst(xs, k + 1);
      if xs[k].None? && FirstSome(xs, k).Some? {
        var i :| k + 1 <= i < |xs| && xs[i] == FirstSome(xs, k + 1)
                 && forall j :: k + 1 <= j < i ==> xs[j].None?;
        assert forall j :: k <= j < i ==> xs[j].None?;
      }
    }
  }

  /** Outcomes without a value before `k` do not affect the result. */
  lemma {:induction false} FirstSomeSkips<T>(xs: seq<Option<T>>, j: nat, k: nat)
    requires j <= k <= |xs|
    requires forall i :: j <= i < k ==> xs[i].None?
    ensures FirstSome(xs, j) == FirstSome(xs, k)
    decreases k - j
  {
    if j < k {
      FirstSomeSkips(xs, j + 1, k);
    }
  }
}
