/** The JavaScript string operations the program relies on: `trim`,
    `startsWith`, `includes`/`indexOf`, `lastIndexOf`, `split` and `join`.
    Strings are sequences of characters. */
module JsString {
  import opened Wrappers

  /** The code points ECMAScript's `trim` removes: WhiteSpace and LineTerminator. */
  predicate IsSpace(c: char) {
    c == ' ' || c == '\t' || c == '\n' || c == '\r' || c == '\U{000B}' || c == '\U{000C}'
    || c == '\U{00A0}' || c == '\U{1680}' || ('\U{2000}' <= c <= '\U{200A}')
    || c == '\U{2028}' || c == '\U{2029}' || c == '\U{202F}' || c == '\U{205F}'
    || c == '\U{3000}' || c == '\U{FEFF}'
  }

  predicate AllSpace(s: string) {
    forall i :: 0 <= i < |s| ==> IsSpace(s[i])
  }

  /** `s.trimStart()`: drops the leading white space and nothing else. */
  function TrimStart(s: string): (r: string)
    ensures |r| <= |s| && r == s[|s| - |r|..]
    ensures AllSpace(s[..|s| - |r|])
    ensures r == [] || !IsSpace(r[0])
  {
    if s != [] && IsSpace(s[0]) then TrimStart(s[1..]) else s
  }

  /** `s.trimEnd()`: drops the trailing white space and nothing else. */
  function TrimEnd(s: string): (r: string)
    ensures |r| <= |s| && r == s[..|r|]
    ensures AllSpace(s[|r|..])
    ensures r == [] || !IsSpace(r[|r| - 1])
  {
    if s != [] && IsSpace(s[|s| - 1]) then TrimEnd(s[..|s| - 1]) else s
  }

  /** `s.trim()`. */
  function Trim(s: string): string {
    TrimEnd(TrimStart(s))
  }

  lemma {:induction false} AllSpaceTrimStart(s: string)
    requires AllSpace(s)
    ensures TrimStart(s) == []
    decreases |s|
  {
    if s != [] {
      AllSpaceTrimStart(s[1..]);
    }
  }

  /** Trimming yields the empty string exactly when the input is all white space. */
  lemma TrimEmptyIff(s: string)
    ensures Trim(s) == [] <==> AllSpace(s)
  {
    if AllSpace(s) {
      AllSpaceTrimStart(s);
    }
    if Trim(s) == [] {
      var t := TrimStart(s);
      assert AllSpace(t[0..]) && t[0..] == t;
      AllSpaceTrimStart(t);
      assert TrimStart(t) == t;
      assert s[..|s| - |t|] == s;
    }
  }

  /** A string with no white space at either end is its own trim. */
  lemma TrimUnpadded(s: string)
    requires s == [] || (!IsSpace(s[0]) && !IsSpace(s[|s| - 1]))
    ensures Trim(s) == s
  {
  }

  /** The trimmed string has no white space at either end. */
  lemma TrimShape(s: string)
    ensures var r := Trim(s); r == [] || (!IsSpace(r[0]) && !IsSpace(r[|r| - 1]))
  {
    var t := TrimStart(s);
    var r := TrimEnd(t);
    if r != [] {
      assert r[0] == t[0];
    }
  }

  predicate StartsWith(s: string, prefix: string) {
    |prefix| <= |s| && s[..|prefix|] == prefix
  }

  predicate OccursAt(s: string, sub: string, i: nat) {
    i + |sub| <= |s| && s[i..i + |sub|] == sub
  }

  /** `s.indexOf(sub, from)`: the first occurrence at or after `from`. */
  function IndexOfFrom(s: string, sub: string, from: nat): (r: Option<nat>)
    requires from <= |s|
    ensures r.Some? ==> from <= r.value && OccursAt(s, sub, r.value)
    ensures r.Some? ==> forall j :: from <= j < r.value ==> !OccursAt(s, sub, j)
    ensures r.None? ==> forall j :: from <= j ==> !OccursAt(s, sub, j)
    decreases |s| - from
  {
    if OccursAt(s, sub, from) then Some(from)
    else if from == |s| then None
    else IndexOfFrom(s, sub, from + 1)
  }

  function IndexOf(s: string, sub: string): Option<nat> {
    IndexOfFrom(s, sub, 0)
  }

  /** `s.includes(sub)`. */
  predicate Contains(s: string, sub: string) {
    IndexOf(s, sub).Some?
  }

  lemma ContainsAt(s: string, sub: string, i: nat)
    requires OccursAt(s, sub, i)
    ensures Contains(s, sub)
  {
  }

  lemma NotContains(s: string, sub: string, j: nat)
    requires !Contains(s, sub)
    ensures !OccursAt(s, sub, j)
  {
  }

  lemma NoOccurrence(s: string, sub: string)
    requires forall j: nat :: !OccursAt(s, sub, j)
    ensures !Contains(s, sub)
  {
  }

  /** A string that does not hold a character does not hold any text that starts with it. */
  lemma NoCharNoText(s: string, sub: string)
    requires |sub| > 0 && forall i :: 0 <= i < |s| ==> s[i] != sub[0]
    ensures !Contains(s, sub)
  {
    forall j: nat ensures !OccursAt(s, sub, j) {
      if j + |sub| <= |s| {
        assert s[j..j + |sub|][0] == s[j];
      }
    }
    NoOccurrence(s, sub);
  }

  /** `s.lastIndexOf(c)` for a single character. */
  function LastIndexOf(s: string, c: char): (r: Option<nat>)
    ensures r.Some? ==> r.value < |s| && s[r.value] == c
    ensures r.Some? ==> forall j :: r.value < j < |s| ==> s[j] != c
    ensures r.None? ==> forall j :: 0 <= j < |s| ==> s[j] != c
  {
    if s == [] then None
    else if s[|s| - 1] == c then Some(|s| - 1)
    else LastIndexOf(s[..|s| - 1], c)
  }

  /** `parts.join(sep)`. */
  function Join(parts: seq<string>, sep: string): string {
    if parts == [] then []
    else if |parts| == 1 then parts[0]
    else parts[0] + sep + Join(parts[1..], sep)
  }

  /** `s.split(sep)` for a non-empty separator: cut at each occurrence, left to
      right. Joining the parts again gives back the input, and no part holds
      the separator; `SplitCutsLeftmost` shows each cut is the leftmost one. */
  function Split(s: string, sep: string): (parts: seq<string>)
    requires |sep| > 0
    ensures |parts| >= 1
    ensures Join(parts, sep) == s
    ensures forall k :: 0 <= k < |parts| ==> !Contains(parts[k], sep)
    decreases |s|
  {
    match IndexOf(s, sep)
    case None => [s]
    case Some(i) =>
      var head := s[..i];
      var rest := Split(s[i + |sep|..], sep);
      assert !Contains(head, sep) by {
        forall j: nat ensures !OccursAt(head, sep, j) {
          if j + |sep| <= |head| {
            assert head[j..j + |sep|] == s[j..j + |sep|];
            assert !OccursAt(s, sep, j);
          }
        }
        NoOccurrence(head, sep);
      }
      assert s == head + sep + s[i + |sep|..] by {
        assert s[i..i + |sep|] == sep;
        assert s == s[..i] + s[i..i + |sep|] + s[i + |sep|..];
      }
      [head] + rest
  }

  /** The cuts are the leftmost ones: there is more than one part exactly
      when the separator occurs, and no occurrence starts inside a part, even
      one that runs on into the separator after it. So "\n\n\n" split on
      "\n\n" is `["", "\n"]` and never `["\n", ""]`. */
  lemma {:induction false} SplitCutsLeftmost(s: string, sep: string)
    requires |sep| > 0
    ensures var parts := Split(s, sep);
      && (|parts| == 1 <==> !Contains(s, sep))
      && forall k :: 0 <= k < |parts| - 1 ==> !Contains(parts[k] + sep[..|sep| - 1], sep)
    decreases |s|
  {
    match IndexOf(s, sep)
    case None =>
    case Some(i) =>
      var head := s[..i];
      var rest := Split(s[i + |sep|..], sep);
      SplitCutsLeftmost(s[i + |sep|..], sep);
      assert Split(s, sep) == [head] + rest;
      LeftmostHead(s, sep, i);
      assert forall k :: 0 < k < |rest| + 1 ==> ([head] + rest)[k] == rest[k - 1];
  }

  /** The text before the first occurrence, run on into all but the last
      character of the separator, holds no occurrence. */
  lemma LeftmostHead(s: string, sep: string, i: nat)
    requires |sep| > 0 && IndexOf(s, sep) == Some(i)
    ensures !Contains(s[..i] + sep[..|sep| - 1], sep)
  {
    assert OccursAt(s, sep, i) && forall j :: 0 <= j < i ==> !OccursAt(s, sep, j);
    var n := i + |sep| - 1;
    var t := s[..n];
    forall j: nat | j + |sep| <= |t| ensures !OccursAt(t, sep, j) {
      assert j < i;
      assert t[j..j + |sep|] == s[j..j + |sep|];
      assert !OccursAt(s, sep, j);
    }
    NoOccurrence(t, sep);
    assert s[..i] + sep[..|sep| - 1] == t by {
      assert s[i..i + |sep|] == sep;
      assert s[i..n] == sep[..|sep| - 1];
      assert t == s[..i] + s[i..n];
    }
  }

  /** A string without the separator splits into itself alone. */
  lemma SplitNone(s: string, sep: string)
    requires |sep| > 0 && !Contains(s, sep)
    ensures Split(s, sep) == [s]
  {
  }

  /** A head free of the separator's first character is cut off first. */
  lemma SplitHead(head: string, sep: string, rest: string)
    requires |sep| > 0
    requires forall i :: 0 <= i < |head| ==> head[i] != sep[0]
    ensures Split(head + sep + rest, sep) == [head] + Split(rest, sep)
  {
    var s := head + sep + rest;
    assert OccursAt(s, sep, |head|) by {
      assert s[|head|..|head| + |sep|] == sep;
    }
    forall j | 0 <= j < |head|
      ensures !OccursAt(s, sep, j)
    {
      if j + |sep| <= |s| {
        assert s[j..j + |sep|][0] == s[j] == head[j];
      }
    }
    assert IndexOf(s, sep) == Some(|head|);
    assert s[..|head|] == head;
    assert s[|head| + |sep|..] == rest;
  }

  /** Text appended after a found occurrence does not move the first
      occurrence: none of the earlier positions reach past the end. */
  lemma {:induction false} IndexOfFromExtend(s: string, t: string, sub: string, from: nat, i: nat)
    requires from <= i && from <= |s| && IndexOfFrom(s, sub, from) == Some(i)
    ensures IndexOfFrom(s + t, sub, from) == Some(i)
    decreases i - from
  {
    assert (s + t)[i..i + |sub|] == s[i..i + |sub|];
    if from < i {
      assert !OccursAt(s, sub, from);
      assert from + |sub| <= |s| ==> (s + t)[from..from + |sub|] == s[from..from + |sub|];
      assert !OccursAt(s + t, sub, from);
      IndexOfFromExtend(s, t, sub, from + 1, i);
    }
  }

  /** The first cut is at the first occurrence. */
  lemma SplitAt(s: string, sep: string, i: nat)
    requires |sep| > 0 && IndexOf(s, sep) == Some(i)
    ensures i + |sep| <= |s| && Split(s, sep) == [s[..i]] + Split(s[i + |sep|..], sep)
  {
  }

  /** All parts but the last, and the last: `parts.pop()`. */
  function AllButLast(parts: seq<string>): seq<string>
    requires |parts| > 0
  {
    parts[..|parts| - 1]
  }

  function Last(parts: seq<string>): string
    requires |parts| > 0
  {
    parts[|parts| - 1]
  }

  lemma ConsParts(x: string, q: seq<string>)
    requires |q| > 0
    ensures AllButLast([x] + q) == [x] + AllButLast(q) && Last([x] + q) == Last(q)
  {
  }

  lemma ConcatAssoc<T>(a: seq<T>, b: seq<T>, c: seq<T>)
    ensures a + (b + c) == (a + b) + c
  {
  }

  /** Splitting a longer text: the parts of `s` before its last stay as
      they are, and the last part continues with `t`. */
  lemma {:induction false} SplitAppend(s: string, t: string, sep: string)
    requires |sep| > 0
    ensures Split(s + t, sep) == AllButLast(Split(s, sep)) + Split(Last(Split(s, sep)) + t, sep)
    decreases |s|
  {
    if IndexOf(s, sep).None? {
      SplitNone(s, sep);
    } else {
      var i := IndexOf(s, sep).value;
      assert i + |sep| <= |s| && OccursAt(s, sep, i);
      SplitAppend(s[i + |sep|..], t, sep);
      SplitAppendStep(s, t, sep, i);
    }
  }

  lemma SplitAppendStep(s: string, t: string, sep: string, i: nat)
    requires |sep| > 0 && IndexOf(s, sep) == Some(i)
    requires i + |sep| <= |s|
    requires var rest := s[i + |sep|..];
      Split(rest + t, sep) == AllButLast(Split(rest, sep)) + Split(Last(Split(rest, sep)) + t, sep)
    ensures Split(s + t, sep) == AllButLast(Split(s, sep)) + Split(Last(Split(s, sep)) + t, sep)
  {
    var rest := s[i + |sep|..];
    var tail := Split(rest, sep);
    var joined := Split(Last(tail) + t, sep);
    assert Split(s + t, sep) == [s[..i]] + Split(rest + t, sep) by {
      IndexOfFromExtend(s, t, sep, 0, i);
      SplitAt(s + t, sep, i);
      assert (s + t)[..i] == s[..i];
      assert (s + t)[i + |sep|..] == rest + t;
    }
    assert Split(s, sep) == [s[..i]] + tail by {
      SplitAt(s, sep, i);
    }
    ConsParts(s[..i], tail);
    ConcatAssoc([s[..i]], AllButLast(tail), joined);
  }

  /** `x || fallback` for an optional string: the empty string, like a
      missing one, gives the fallback. */
  function OrElse(s: Option<string>, fallback: string): (r: string)
    ensures r == fallback || (s.Some? && r == s.value && r != "")
  {
    if s.Some? && s.value != "" then s.value else fallback
  }
  /** The number of bytes `Buffer.from(c)` gives for one character: its
      UTF-8 encoding takes one to four bytes by code point. */
  function Utf8Width(c: char): (w: nat)
    ensures 1 <= w <= 4
    ensures w == 1 <==> (c as int) < 0x80
  {
    if (c as int) < 0x80 then 1
    else if (c as int) < 0x800 then 2
    else if (c as int) < 0x10000 then 3
    else 4
  }

  /** `Buffer.byteLength(s)`: the length of the text's UTF-8 encoding. It
      equals the character count exactly when every character is ASCII. */
  function Utf8Length(s: string): (n: nat)
    ensures |s| <= n <= 4 * |s|
    ensures n == |s| <==> forall i :: 0 <= i < |s| ==> (s[i] as int) < 0x80
  {
    if s == [] then 0
    else
      var n := Utf8Width(s[0]) + Utf8Length(s[1..]);
      assert forall i :: 1 <= i < |s| ==> s[i] == s[1..][i - 1];
      n
  }
}
