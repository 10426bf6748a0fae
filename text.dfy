/**
 * String operations the script relies on: Python's `str.strip()`, `str.lower()`,
 * `" ".join(...)` and `str.rfind(...)`, stated over `seq<char>`.
 */
module Text {

  /** Python's `str.isspace()` for one character: the ASCII whitespace and
      separator controls plus the Unicode space and separator characters. */
  predicate IsSpace(c: char) {
    ('\t' <= c <= '\r') || ('\U{1C}' <= c <= '\U{1F}') || c == ' ' ||
    c == '\U{85}' || c == '\U{A0}' || c == '\U{1680}' ||
    ('\U{2000}' <= c <= '\U{200A}') || c == '\U{2028}' || c == '\U{2029}' ||
    c == '\U{202F}' || c == '\U{205F}' || c == '\U{3000}'
  }

  predicate AllSpace(s: string) {
    forall k :: 0 <= k < |s| ==> IsSpace(s[k])
  }

  /** `s.lstrip()`. */
  function TrimStart(s: string): (r: string)
    ensures |r| <= |s|
  {
    if s != [] && IsSpace(s[0]) then TrimStart(s[1..]) else s
  }

  /** `s.rstrip()`. */
  function TrimEnd(s: string): (r: string)
    ensures |r| <= |s|
  {
    if s != [] && IsSpace(s[|s| - 1]) then TrimEnd(s[..|s| - 1]) else s
  }

  /** `lstrip` drops the whitespace at the front of `s` and nothing else. */
  lemma {:induction false} TrimStartSpec(s: string)
    ensures var r := TrimStart(s);
            r == s[|s| - |r|..] && AllSpace(s[..|s| - |r|]) && (r == [] || !IsSpace(r[0]))
    decreases |s|
  {
    if s != [] && IsSpace(s[0]) {
      TrimStartSpec(s[1..]);
      var r := TrimStart(s);
      assert s[..|s| - |r|] == [s[0]] + s[1..][..|s| - 1 - |r|];
    }
  }

  /** `rstrip` drops the whitespace at the end of `s` and nothing else. */
  lemma {:induction false} TrimEndSpec(s: string)
    ensures var r := TrimEnd(s);
            r == s[..|r|] && AllSpace(s[|r|..]) && (r == [] || !IsSpace(r[|r| - 1]))
    decreases |s|
  {
    if s != [] && IsSpace(s[|s| - 1]) {
      TrimEndSpec(s[..|s| - 1]);
      var r := TrimEnd(s);
      assert s[|r|..] == s[..|s| - 1][|r|..] + [s[|s| - 1]];
    }
  }

  /** `s.strip()`: `s` without the whitespace at either end. */
  function Strip(s: string): (r: string)
    ensures |r| <= |s|
    ensures r == [] || (!IsSpace(r[0]) && !IsSpace(r[|r| - 1]))
  {
    TrimEndSpec(s);
    TrimStartSpec(TrimEnd(s));
    TrimStart(TrimEnd(s))
  }

  /** `r` occurs in `s` at index `i` with only whitespace before and after it. */
  predicate SpaceAround(s: string, r: string, i: int) {
    0 <= i <= |s| - |r| && r == s[i..i + |r|] && AllSpace(s[..i]) && AllSpace(s[i + |r|..])
  }

  /** What `Strip` removes is whitespace and only that: its result is the infix of
      `s` that lies between a whitespace prefix and a whitespace suffix. */
  lemma StripIsInfix(s: string)
    ensures exists i :: SpaceAround(s, Strip(s), i)
  {
    var e := TrimEnd(s);
    TrimEndSpec(s);
    var r := TrimStart(e);
    TrimStartSpec(e);
    var i := |e| - |r|;
    assert r == s[i..|e|];
    assert AllSpace(s[..i]) by {
      assert s[..i] == e[..i];
    }
    assert Strip(s) == r && SpaceAround(s, r, i);
  }

  /** Stripping cannot see a whitespace character appended at the end. */
  lemma StripDropsTrailingSpace(s: string, c: char)
    requires IsSpace(c)
    ensures Strip(s + [c]) == Strip(s)
  {
    var t := s + [c];
    assert t[|t| - 1] == c && t[..|t| - 1] == s;
    assert TrimEnd(t) == TrimEnd(s);
  }

  /** A string with no whitespace at either end is its own strip. */
  lemma StripOfStripped(s: string)
    requires s == [] || (!IsSpace(s[0]) && !IsSpace(s[|s| - 1]))
    ensures Strip(s) == s
  {
  }

  /** `" ".join(parts)`. */
  function JoinSpace(parts: seq<string>): (r: string)
    ensures parts == [] ==> r == []
    ensures |parts| == 1 ==> r == parts[0]
    decreases |parts|
  {
    if parts == [] then []
    else if |parts| == 1 then parts[0]
    else parts[0] + " " + JoinSpace(parts[1..])
  }

  /** Joining one more part appends a separator and the part. */
  lemma {:induction false} JoinSpaceSnoc(parts: seq<string>, last: string)
    requires parts != []
    ensures JoinSpace(parts + [last]) == JoinSpace(parts) + " " + last
    decreases |parts|
  {
    if |parts| == 1 {
      assert parts + [last] == [parts[0], last];
      assert ([parts[0], last])[1..] == [last];
    } else {
      assert (parts + [last])[1..] == parts[1..] + [last];
      JoinSpaceSnoc(parts[1..], last);
    }
  }

  /** ASCII-only `str.lower()`. */
  function AsciiLower(s: string): (r: string)
    ensures |r| == |s|
    ensures forall k :: 0 <= k < |s| ==>
              r[k] == (if 'A' <= s[k] <= 'Z' then (s[k] as int + 32) as char else s[k])
  {
    seq(|s|, k requires 0 <= k < |s| =>
      if 'A' <= s[k] <= 'Z' then (s[k] as int + 32) as char else s[k])
  }

  /** `s.rfind(c)`: the last index holding `c`, or -1 when there is none. */
  function LastIndexOf(s: string, c: char): (i: int)
    ensures -1 <= i < |s|
    ensures i >= 0 ==> s[i] == c
    ensures forall k :: i < k < |s| ==> s[k] != c
  {
    if s == [] then -1
    else if s[|s| - 1] == c then |s| - 1
    else LastIndexOf(s[..|s| - 1], c)
  }
}
