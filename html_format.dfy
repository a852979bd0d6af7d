/**
 * `formatMessageHtml` from the browser page: the text of a chat bubble is
 * escaped (`&`, `<`, `>` become entities, in that order) and its line feeds
 * become `<br/>` tags before it is assigned to `innerHTML`.
 *
 * The proofs view each step of the escaper as raising an "escape level": at
 * level k the first k of the characters `&`, `<`, `>`, line feed are written
 * as their replacement and the others as themselves.
 */
module HtmlFormat {
  import opened Text

  // ----- The JavaScript global replacements -----

  /**
   * `s.replace(/c/g, rep)`: every occurrence of the character `c` replaced by
   * `rep`. Text without `c` is left as it is; every character of the result
   * is a character of `s` other than `c` or one of `rep`, so no `c` is left
   * when `rep` has none.
   */
  function ReplaceChar(s: string, c: char, rep: string): (r: string)
    ensures rep != [] ==> |r| >= |s|
    ensures c !in s ==> r == s
    ensures forall x :: x in r ==> (x in s && x != c) || x in rep
    ensures c !in rep ==> c !in r
  {
    if s == [] then [] else (if s[0] == c then rep else [s[0]]) + ReplaceChar(s[1..], c, rep)
  }

  /**
   * `s.replace(/pat/g, rep)` for a non-empty literal pattern: the leftmost
   * occurrence is replaced first and the scan resumes after it.
   */
  function ReplaceStr(s: string, pat: string, rep: string): string
    requires pat != []
    decreases |s|
  {
    if s == [] then []
    else if |pat| <= |s| && s[..|pat|] == pat then rep + ReplaceStr(s[|pat|..], pat, rep)
    else [s[0]] + ReplaceStr(s[1..], pat, rep)
  }

  // ----- The escaper and its inverse -----

  /** The HTML placed in a message bubble for the message text `text`. */
  function FormatMessageHtml(text: string): (html: string)
    ensures html == [] <==> text == []
  {
    if text == [] then []
    else
      var esc := ReplaceChar(ReplaceChar(ReplaceChar(text, '&', "&amp;"), '<', "&lt;"), '>', "&gt;");
      ReplaceChar(esc, '\n', "<br/>")
  }

  /** The escaper's steps undone in reverse order. */
  function UnformatMessageHtml(html: string): string
  {
    ReplaceStr(ReplaceStr(ReplaceStr(ReplaceStr(html, "<br/>", "\n"), "&gt;", ">"), "&lt;", "<"), "&amp;", "&")
  }

  // ----- Escape levels -----

  /** The step of the escaper that rewrites `c`, or 0 if none does. */
  function Level(c: char): nat
  {
    if c == '&' then 1 else if c == '<' then 2 else if c == '>' then 3 else if c == '\n' then 4 else 0
  }

  /** The character rewritten by step `k`. */
  function Special(k: nat): char
    requires 1 <= k <= 4
  {
    if k == 1 then '&' else if k == 2 then '<' else if k == 3 then '>' else '\n'
  }

  /** What the escaper writes for `c` once every step has run. */
  function Entity(c: char): string
  {
    if c == '&' then "&amp;"
    else if c == '<' then "&lt;"
    else if c == '>' then "&gt;"
    else if c == '\n' then "<br/>"
    else [c]
  }

  /** `c` after the first `k` steps. */
  function Enc(k: nat, c: char): string
  {
    if 1 <= Level(c) <= k then Entity(c) else [c]
  }

  /** `s` after the first `k` steps, character by character. */
  function EncodeAt(k: nat, s: string): string
  {
    if s == [] then [] else Enc(k, s[0]) + EncodeAt(k, s[1..])
  }

  // ----- Facts about ReplaceChar -----

  /** Replacement works character by character, so it distributes over concatenation. */
  lemma {:induction false} ReplaceCharAppend(a: string, b: string, c: char, rep: string)
    ensures ReplaceChar(a + b, c, rep) == ReplaceChar(a, c, rep) + ReplaceChar(b, c, rep)
  {
    if a != [] {
      assert (a + b)[0] == a[0] && (a + b)[1..] == a[1..] + b;
      ReplaceCharAppend(a[1..], b, c, rep);
    } else {
      assert a + b == b;
    }
  }

  // ----- Facts about ReplaceStr -----

  lemma ReplaceStrSkip(s: string, pat: string, rep: string)
    requires pat != [] && s != [] && s[0] != pat[0]
    ensures ReplaceStr(s, pat, rep) == [s[0]] + ReplaceStr(s[1..], pat, rep)
  {
    if |pat| <= |s| {
      assert s[..|pat|][0] != pat[0];
    }
  }

  lemma ReplaceStrMatch(t: string, pat: string, rep: string)
    requires pat != []
    ensures ReplaceStr(pat + t, pat, rep) == rep + ReplaceStr(t, pat, rep)
  {
    assert (pat + t)[..|pat|] == pat;
    assert (pat + t)[|pat|..] == t;
  }

  /** A run none of whose characters can start the pattern is copied unchanged. */
  lemma {:induction false} ReplaceStrSkipRun(u: string, t: string, pat: string, rep: string)
    requires pat != []
    requires forall i :: 0 <= i < |u| ==> u[i] != pat[0]
    ensures ReplaceStr(u + t, pat, rep) == u + ReplaceStr(t, pat, rep)
  {
    if u != [] {
      ReplaceStrSkip(u + t, pat, rep);
      assert (u + t)[1..] == u[1..] + t;
      ReplaceStrSkipRun(u[1..], t, pat, rep);
    } else {
      assert u + t == t;
    }
  }

  /**
   * An entity that differs from the pattern in its first two characters and
   * cannot start the pattern anywhere after its head is copied unchanged.
   */
  lemma ReplaceStrPassEntity(e: string, t: string, pat: string, rep: string)
    requires |e| >= 2 && |pat| >= 2
    requires e[0] != pat[0] || e[1] != pat[1]
    requires forall i :: 1 <= i < |e| ==> e[i] != pat[0]
    ensures ReplaceStr(e + t, pat, rep) == e + ReplaceStr(t, pat, rep)
  {
    var s := e + t;
    if |pat| <= |s| {
      assert s[..|pat|][0] == e[0] && s[..|pat|][1] == e[1];
    }
    assert ReplaceStr(s, pat, rep) == [e[0]] + ReplaceStr(s[1..], pat, rep);
    assert s[1..] == e[1..] + t;
    ReplaceStrSkipRun(e[1..], t, pat, rep);
  }

  // ----- The escaper, step by step -----

  lemma {:induction false} EncodeAtZero(s: string)
    ensures EncodeAt(0, s) == s
  {
    if s != [] {
      EncodeAtZero(s[1..]);
    }
  }

  /** Step `k` of the escaper on one character already at level `k - 1`. */
  lemma EscapeChar(k: nat, c: char)
    requires 1 <= k <= 4
    ensures ReplaceChar(Enc(k - 1, c), Special(k), Entity(Special(k))) == Enc(k, c)
  {
    var rep := Entity(Special(k));
    if 1 <= Level(c) < k {
      assert Special(k) !in Entity(c);
    } else {
      assert Enc(k - 1, c) == [c];
      assert ReplaceChar([c], Special(k), rep) == (if c == Special(k) then rep else [c]) + ReplaceChar([], Special(k), rep);
    }
  }

  /** Step `k` of the escaper takes level `k - 1` to level `k`. */
  lemma {:induction false} EscapeStep(k: nat, s: string)
    requires 1 <= k <= 4
    ensures ReplaceChar(EncodeAt(k - 1, s), Special(k), Entity(Special(k))) == EncodeAt(k, s)
  {
    if s != [] {
      var rep := Entity(Special(k));
      ReplaceCharAppend(Enc(k - 1, s[0]), EncodeAt(k - 1, s[1..]), Special(k), rep);
      EscapeChar(k, s[0]);
      EscapeStep(k, s[1..]);
    }
  }

  /** The escaper writes each character as its full replacement. */
  lemma FormatIsEncode(text: string)
    ensures FormatMessageHtml(text) == EncodeAt(4, text)
  {
    assert Special(1) == '&' && Entity('&') == "&amp;";
    assert Special(2) == '<' && Entity('<') == "&lt;";
    assert Special(3) == '>' && Entity('>') == "&gt;";
    assert Special(4) == '\n' && Entity('\n') == "<br/>";
    EncodeAtZero(text);
    EscapeStep(1, text);
    var e1 := ReplaceChar(text, '&', "&amp;");
    assert e1 == EncodeAt(1, text);
    EscapeStep(2, text);
    var e2 := ReplaceChar(e1, '<', "&lt;");
    assert e2 == EncodeAt(2, text);
    EscapeStep(3, text);
    var e3 := ReplaceChar(e2, '>', "&gt;");
    assert e3 == EncodeAt(3, text);
    EscapeStep(4, text);
    if text == [] {
      assert EncodeAt(4, text) == [];
    } else {
      assert FormatMessageHtml(text) == ReplaceChar(e3, '\n', "<br/>");
    }
  }

  /** Undoing step `k` on one character's encoding. */
  lemma UnescapeChar(k: nat, c: char, t: string)
    requires 1 <= k <= 4
    ensures ReplaceStr(Enc(k, c) + t, Entity(Special(k)), [Special(k)])
            == Enc(k - 1, c) + ReplaceStr(t, Entity(Special(k)), [Special(k)])
  {
    var pat := Entity(Special(k));
    if Level(c) == k {
      ReplaceStrMatch(t, pat, [Special(k)]);
    } else if 1 <= Level(c) < k {
      ReplaceStrPassEntity(Entity(c), t, pat, [Special(k)]);
    } else {
      ReplaceStrSkip([c] + t, pat, [Special(k)]);
      assert ([c] + t)[1..] == t;
    }
  }

  /** Undoing step `k` takes level `k` back to level `k - 1`. */
  lemma {:induction false} UnescapeStep(k: nat, s: string)
    requires 1 <= k <= 4
    ensures ReplaceStr(EncodeAt(k, s), Entity(Special(k)), [Special(k)]) == EncodeAt(k - 1, s)
  {
    if s != [] {
      UnescapeChar(k, s[0], EncodeAt(k, s[1..]));
      UnescapeStep(k, s[1..]);
    }
  }

  // ----- What the escaper promises -----

  /** Reversing the replacements recovers the message text exactly. */
  lemma FormatRoundTrip(text: string)
    ensures UnformatMessageHtml(FormatMessageHtml(text)) == text
  {
    FormatIsEncode(text);
    assert Entity(Special(4)) == "<br/>" && Entity(Special(3)) == "&gt;";
    assert Entity(Special(2)) == "&lt;" && Entity(Special(1)) == "&amp;";
    UnescapeStep(4, text);
    var h3 := ReplaceStr(FormatMessageHtml(text), "<br/>", "\n");
    assert h3 == EncodeAt(3, text);
    UnescapeStep(3, text);
    var h2 := ReplaceStr(h3, "&gt;", ">");
    assert h2 == EncodeAt(2, text);
    UnescapeStep(2, text);
    var h1 := ReplaceStr(h2, "&lt;", "<");
    assert h1 == EncodeAt(1, text);
    UnescapeStep(1, text);
    EncodeAtZero(text);
  }

  /** Different messages never render to the same HTML. */
  lemma FormatInjective(a: string, b: string)
    requires FormatMessageHtml(a) == FormatMessageHtml(b)
    ensures a == b
  {
    FormatRoundTrip(a);
    FormatRoundTrip(b);
  }

  /** Every line feed has been turned into a tag. */
  lemma FormatHasNoLineFeed(text: string)
    ensures '\n' !in FormatMessageHtml(text)
  {
    if text != [] {
      assert '\n' !in "<br/>";
    }
  }

  /** Every `<` in `h` opens a `<br/>` tag. */
  ghost predicate OpensOnlyBreaks(h: string)
  {
    forall i :: 0 <= i < |h| && h[i] == '<' ==> OccursAt(h, "<br/>", i)
  }

  /** Every `>` in `h` closes a `<br/>` tag. */
  ghost predicate ClosesOnlyBreaks(h: string)
  {
    forall i :: 0 <= i < |h| && h[i] == '>' ==> OccursAt(h, "<br/>", i - 4)
  }

  /** Every angle bracket in `h` belongs to a `<br/>` tag. */
  ghost predicate OnlyBreakTags(h: string)
  {
    OpensOnlyBreaks(h) && ClosesOnlyBreaks(h)
  }

  lemma OccursAtAppend(a: string, b: string, t: string, i: int)
    ensures OccursAt(a, t, i) ==> OccursAt(a + b, t, i)
    ensures OccursAt(b, t, i) ==> OccursAt(a + b, t, |a| + i)
  {
    if OccursAt(a, t, i) {
      assert (a + b)[i..i + |t|] == a[i..i + |t|];
    }
    if OccursAt(b, t, i) {
      assert (a + b)[|a| + i..|a| + i + |t|] == b[i..i + |t|];
    }
  }

  lemma OpensOnlyBreaksAppend(a: string, b: string)
    requires OpensOnlyBreaks(a) && OpensOnlyBreaks(b)
    ensures OpensOnlyBreaks(a + b)
  {
    forall i | 0 <= i < |a + b| && (a + b)[i] == '<'
      ensures OccursAt(a + b, "<br/>", i)
    {
      if i < |a| {
        OccursAtAppend(a, b, "<br/>", i);
      } else {
        OccursAtAppend(a, b, "<br/>", i - |a|);
      }
    }
  }

  lemma ClosesOnlyBreaksAppend(a: string, b: string)
    requires ClosesOnlyBreaks(a) && ClosesOnlyBreaks(b)
    ensures ClosesOnlyBreaks(a + b)
  {
    forall i | 0 <= i < |a + b| && (a + b)[i] == '>'
      ensures OccursAt(a + b, "<br/>", i - 4)
    {
      if i < |a| {
        OccursAtAppend(a, b, "<br/>", i - 4);
      } else {
        OccursAtAppend(a, b, "<br/>", i - |a| - 4);
      }
    }
  }

  lemma {:induction false} EncodeOnlyBreakTags(s: string)
    ensures OnlyBreakTags(EncodeAt(4, s))
  {
    if s != [] {
      var e := Enc(4, s[0]);
      if s[0] == '\n' {
        assert OccursAt(e, "<br/>", 0);
      }
      assert OnlyBreakTags(e);
      EncodeOnlyBreakTags(s[1..]);
      OpensOnlyBreaksAppend(e, EncodeAt(4, s[1..]));
      ClosesOnlyBreaksAppend(e, EncodeAt(4, s[1..]));
    }
  }

  /** The bubble's HTML carries no element other than line breaks, whatever the message says. */
  lemma FormatOnlyBreakTags(text: string)
    ensures OnlyBreakTags(FormatMessageHtml(text))
  {
    FormatIsEncode(text);
    EncodeOnlyBreakTags(text);
  }
}
