/** The parts of Python's string semantics the updater relies on: truthiness of an
    optional string, `str.isspace`, `str.strip` and `str.join`. */
module PyStr {
  import opened Wrappers

  /** Python's truth value of a value that is either `None` or a `str`:
      both `None` and the empty string are false. */
  predicate Truthy(o: Option<string>)
    ensures Truthy(o) <==> o != None && o != Some("")
  {
    o.Some? && o.value != ""
  }

  /** The characters for which Python's `str.isspace()` holds, the ones `str.strip()`
      removes when it is called without arguments. */
  predicate IsSpace(c: char)
  {
    ('\t' <= c <= '\r') || ('\U{1C}' <= c <= '\U{1F}') || c == ' '
    || c == '\U{85}' || c == '\U{A0}' || c == '\U{1680}'
    || ('\U{2000}' <= c <= '\U{200A}') || c == '\U{2028}' || c == '\U{2029}'
    || c == '\U{202F}' || c == '\U{205F}' || c == '\U{3000}'
  }

  /** On ASCII, the whitespace is tab, line feed, vertical tab, form feed, carriage
      return, the four separators 0x1C to 0x1F, and space. */
  lemma AsciiSpaces(c: char)
    requires c < '\U{80}'
    ensures IsSpace(c) <==> c in "\t\n\U{B}\U{C}\r\U{1C}\U{1D}\U{1E}\U{1F} "
  {
  }

  /** `s.lstrip()`: drops the leading whitespace, and only that. */
  function TrimStart(s: string): (r: string)
    ensures |r| <= |s| && r == s[|s| - |r|..]
    ensures r == [] || !IsSpace(r[0])
    ensures forall i :: 0 <= i < |s| - |r| ==> IsSpace(s[i])
  {
    if |s| > 0 && IsSpace(s[0]) then TrimStart(s[1..]) else s
  }

  /** `s.rstrip()`: drops the trailing whitespace, and only that. */
  function TrimEnd(s: string): (r: string)
    ensures |r| <= |s| && r == s[..|r|]
    ensures r == [] || !IsSpace(r[|r| - 1])
    ensures forall i :: |r| <= i < |s| ==> IsSpace(s[i])
  {
    if |s| > 0 && IsSpace(s[|s| - 1]) then TrimEnd(s[..|s| - 1]) else s
  }

  /** `s.strip()`: whitespace removed at both ends. */
  function Strip(s: string): (r: string)
    ensures r == [] || (!IsSpace(r[0]) && !IsSpace(r[|r| - 1]))
  {
    TrimEnd(TrimStart(s))
  }

  /** What `strip()` cuts off: the result is a slice of `s`, and every character outside
      that slice, on either side, is whitespace. */
  lemma StripIsSlice(s: string)
    ensures exists k, j :: 0 <= k <= j <= |s| && Strip(s) == s[k..j]
                           && (forall i :: 0 <= i < k || j <= i < |s| ==> IsSpace(s[i]))
  {
    var t := TrimStart(s);
    assert Strip(s) == TrimEnd(t);
    TrimmedSlice(s, t, Strip(s));
  }

  /** When `t` is what is left of `s` after dropping whitespace in front, and `r` what is
      left of `t` after dropping whitespace behind, `r` is a slice of `s` and everything
      dropped is whitespace. */
  lemma TrimmedSlice(s: string, t: string, r: string)
    requires |t| <= |s| && t == s[|s| - |t|..]
    requires |r| <= |t| && r == t[..|r|]
    requires forall i :: 0 <= i < |s| - |t| ==> IsSpace(s[i])
    requires forall i :: |r| <= i < |t| ==> IsSpace(t[i])
    ensures exists k, j :: 0 <= k <= j <= |s| && r == s[k..j]
                           && (forall i :: 0 <= i < k || j <= i < |s| ==> IsSpace(s[i]))
  {
    var k, j := |s| - |t|, |s| - |t| + |r|;
    forall i | j <= i < |s|
      ensures IsSpace(s[i])
    {
      assert s[i] == t[i - k];
    }
    assert r == s[k..j];
  }

  /** `sep.join(parts)`. */
  function Join(sep: string, parts: seq<string>): string {
    if |parts| == 0 then ""
    else if |parts| == 1 then parts[0]
    else parts[0] + sep + Join(sep, parts[1..])
  }

  /** `join` step by step: one part joins to itself, an empty list to `""`, and each
      further part is appended after one more separator. */
  lemma {:induction false} JoinAppend(sep: string, parts: seq<string>, p: string)
    ensures Join(sep, []) == "" && Join(sep, [p]) == p
    ensures |parts| > 0 ==> Join(sep, parts + [p]) == Join(sep, parts) + sep + p
  {
    if |parts| > 1 {
      assert (parts + [p])[1..] == parts[1..] + [p];
      JoinAppend(sep, parts[1..], p);
    } else if |parts| == 1 {
      assert parts + [p] == [parts[0], p];
      assert [parts[0], p][1..] == [p];
    }
  }

  /** Joining two parts puts the separator between them. */
  lemma JoinTwo(sep: string, a: string, b: string)
    ensures Join(sep, [a, b]) == a + sep + b
  {
    assert [a, b][1..] == [b];
  }

  /** Trailing whitespace of a concatenation: it comes from `b` alone unless `b` is
      nothing but whitespace, in which case it reaches into `a`. */
  lemma {:induction false} TrimEndConcat(a: string, b: string)
    ensures TrimEnd(a + b) == if TrimEnd(b) == [] then TrimEnd(a) else a + TrimEnd(b)
  {
    if b == [] {
      assert a + b == a;
    } else if IsSpace(b[|b| - 1]) {
      assert (a + b)[..|a + b| - 1] == a + b[..|b| - 1];
      TrimEndConcat(a, b[..|b| - 1]);
    } else {
      assert (a + b)[|a + b| - 1] == b[|b| - 1];
    }
  }

  /** A string that neither starts nor ends with whitespace is its own `strip()`. */
  lemma StripFramed(h: string)
    requires |h| > 0 && !IsSpace(h[0]) && !IsSpace(h[|h| - 1])
    ensures Strip(h) == h
  {
    assert TrimStart(h) == h;
  }

  /** Stripping `h + sep + n`, where `h` is framed by non-whitespace and `sep` is all
      whitespace: `h` stays, and `sep` survives only when `n` has non-whitespace content,
      followed by `n` without its trailing whitespace. */
  lemma StripAfterFramed(h: string, sep: string, n: string)
    requires |h| > 0 && !IsSpace(h[0]) && !IsSpace(h[|h| - 1])
    requires forall i :: 0 <= i < |sep| ==> IsSpace(sep[i])
    ensures Strip(h + sep + n) == if TrimEnd(n) == [] then h else h + sep + TrimEnd(n)
  {
    var s := h + sep + n;
    assert s[0] == h[0];
    assert TrimStart(s) == s;
    TrimEndConcat(h + sep, n);
    if TrimEnd(n) == [] {
      TrimEndConcat(h, sep);
      AllSpaceTrimsAway(sep);
    }
  }

  /** A string of whitespace only trims to nothing. */
  lemma AllSpaceTrimsAway(s: string)
    requires forall i :: 0 <= i < |s| ==> IsSpace(s[i])
    ensures TrimEnd(s) == []
  {
  }
}
