/**
 * Whitespace trimming as the two languages of the program define it, and
 * substring search. The server strips provider output with Python's
 * `str.strip()`; the browser trims the input box with JavaScript's
 * `String.prototype.trim()`. The two disagree on a few characters, so each
 * has its own whitespace set.
 */
module Text {

  /** The characters for which Python's `str.isspace()` holds: what `str.strip()` removes. */
  const PythonWhitespace: set<char> := {
    '\t', '\n', '\U{B}', '\U{C}', '\r', '\U{1C}', '\U{1D}', '\U{1E}', '\U{1F}', ' ',
    '\U{85}', '\U{A0}', '\U{1680}',
    '\U{2000}', '\U{2001}', '\U{2002}', '\U{2003}', '\U{2004}', '\U{2005}',
    '\U{2006}', '\U{2007}', '\U{2008}', '\U{2009}', '\U{200A}',
    '\U{2028}', '\U{2029}', '\U{202F}', '\U{205F}', '\U{3000}'
  }

  /** ECMAScript WhiteSpace and LineTerminator: what `String.prototype.trim()` removes. */
  const JsWhitespace: set<char> := {
    '\t', '\n', '\U{B}', '\U{C}', '\r', ' ', '\U{A0}', '\U{1680}',
    '\U{2000}', '\U{2001}', '\U{2002}', '\U{2003}', '\U{2004}', '\U{2005}',
    '\U{2006}', '\U{2007}', '\U{2008}', '\U{2009}', '\U{200A}',
    '\U{2028}', '\U{2029}', '\U{202F}', '\U{205F}', '\U{3000}', '\U{FEFF}'
  }

  /** `r` is the part of `s` from index `i` on, with only `ws` characters before and after it. */
  ghost predicate TrimmedAt(r: string, s: string, ws: set<char>, i: int)
  {
    && 0 <= i <= |s| - |r| && r == s[i..i + |r|]
    && (forall k :: 0 <= k < i ==> s[k] in ws)
    && (forall k :: i + |r| <= k < |s| ==> s[k] in ws)
  }

  /** `r` is `s` with a run of `ws` characters cut from each end and nothing else changed. */
  ghost predicate IsTrimOf(r: string, s: string, ws: set<char>)
  {
    exists i :: TrimmedAt(r, s, ws, i)
  }

  /**
   * Removes surrounding whitespace, one end character at a time. Nothing but
   * whitespace is removed, and no more can be: neither end of the result is
   * whitespace.
   */
  function Trim(s: string, ws: set<char>): (r: string)
    ensures IsTrimOf(r, s, ws)
    ensures r == [] || (r[0] !in ws && r[|r| - 1] !in ws)
  {
    if s == [] then
      assert TrimmedAt([], s, ws, 0);
      []
    else if s[0] in ws then
      var r := Trim(s[1..], ws);
      assert IsTrimOf(r, s, ws) by {
        var i :| TrimmedAt(r, s[1..], ws, i);
        TrimmedAtAfterFirst(r, s, ws, i);
      }
      r
    else if s[|s| - 1] in ws then
      var r := Trim(s[..|s| - 1], ws);
      assert IsTrimOf(r, s, ws) by {
        var i :| TrimmedAt(r, s[..|s| - 1], ws, i);
        TrimmedAtBeforeLast(r, s, ws, i);
      }
      r
    else
      assert TrimmedAt(s, s, ws, 0);
      s
  }

  /** A whitespace character in front of a trimmed string moves its start by one. */
  lemma TrimmedAtAfterFirst(r: string, s: string, ws: set<char>, i: int)
    requires s != [] && s[0] in ws && TrimmedAt(r, s[1..], ws, i)
    ensures TrimmedAt(r, s, ws, i + 1)
  {
    assert r == s[1..][i..i + |r|] == s[i + 1..i + 1 + |r|];
    forall k | 0 <= k < i + 1 ensures s[k] in ws {
      if k > 0 { assert s[k] == s[1..][k - 1]; }
    }
    forall k | i + 1 + |r| <= k < |s| ensures s[k] in ws {
      assert s[k] == s[1..][k - 1];
    }
  }

  /** A whitespace character after a trimmed string leaves its start where it is. */
  lemma TrimmedAtBeforeLast(r: string, s: string, ws: set<char>, i: int)
    requires s != [] && s[|s| - 1] in ws && TrimmedAt(r, s[..|s| - 1], ws, i)
    ensures TrimmedAt(r, s, ws, i)
  {
    var p := s[..|s| - 1];
    assert r == p[i..i + |r|] == s[i..i + |r|];
    forall k | 0 <= k < i ensures s[k] in ws {
      assert s[k] == p[k];
    }
    forall k | i + |r| <= k < |s| ensures s[k] in ws {
      if k < |s| - 1 { assert s[k] == p[k]; }
    }
  }

  /** Python's `str.strip()` with no argument. */
  function PyStrip(s: string): (r: string)
    ensures IsTrimOf(r, s, PythonWhitespace)
    ensures r == [] || (r[0] !in PythonWhitespace && r[|r| - 1] !in PythonWhitespace)
  {
    Trim(s, PythonWhitespace)
  }

  /** JavaScript's `String.prototype.trim()`: empty exactly for blank input. */
  function JsTrim(s: string): (r: string)
    ensures IsTrimOf(r, s, JsWhitespace)
    ensures r == [] || (r[0] !in JsWhitespace && r[|r| - 1] !in JsWhitespace)
    ensures r == [] <==> forall i :: 0 <= i < |s| ==> s[i] in JsWhitespace
  {
    TrimEmptyIffBlank(s, JsWhitespace);
    Trim(s, JsWhitespace)
  }

  /** A string that neither starts nor ends with whitespace is left as it is. */
  lemma TrimOfTrimmed(s: string, ws: set<char>)
    requires s == [] || (s[0] !in ws && s[|s| - 1] !in ws)
    ensures Trim(s, ws) == s
  {
  }

  /** Trimming twice is trimming once. */
  lemma TrimIdempotent(s: string, ws: set<char>)
    ensures Trim(Trim(s, ws), ws) == Trim(s, ws)
  {
    TrimOfTrimmed(Trim(s, ws), ws);
  }

  /** Only whitespace trims to the empty string. */
  lemma TrimEmptyIffBlank(s: string, ws: set<char>)
    ensures Trim(s, ws) == [] <==> forall i :: 0 <= i < |s| ==> s[i] in ws
  {
    if Trim(s, ws) != [] {
      var r := Trim(s, ws);
      var i :| TrimmedAt(r, s, ws, i);
      assert s[i] == r[0];
    }
  }

  /** `t` occurs in `s` starting at index `i`. */
  predicate OccursAt(s: string, t: string, i: int)
  {
    0 <= i <= |s| - |t| && s[i..i + |t|] == t
  }

  /** `t` occurs in `s` as a contiguous run. */
  ghost predicate Contains(s: string, t: string)
  {
    exists i :: OccursAt(s, t, i)
  }
}
