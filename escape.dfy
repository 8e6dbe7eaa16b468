/**
 * The escaping helpers of dojang/escape.py.  `simple_escape` neutralises
 * angle brackets, `br_escape` turns newlines into `<br/>`, and `html_escape`
 * hands a non-empty string to tornado's `xhtml_escape`, which this model
 * takes as a parameter.
 */
module Escape {
  import opened Base

  /** `s.replace(c, rep)` for a one-character pattern. */
  function ReplaceChar(s: string, c: char, rep: string): (r: string)
    ensures c !in rep ==> c !in r
    ensures forall x :: x in r ==> (x in s && x != c) || x in rep
    ensures c !in s ==> r == s
  {
    if s == [] then ""
    else (if s[0] == c then rep else [s[0]]) + ReplaceChar(s[1..], c, rep)
  }

  lemma {:induction false} ReplaceCharAppend(a: string, b: string, c: char, rep: string)
    ensures ReplaceChar(a + b, c, rep) == ReplaceChar(a, c, rep) + ReplaceChar(b, c, rep)
  {
    if a == [] {
      assert a + b == b;
    } else {
      assert (a + b)[0] == a[0];
      assert (a + b)[1..] == a[1..] + b;
      ReplaceCharAppend(a[1..], b, c, rep);
    }
  }

  /** What `simple_escape` makes of one character. */
  function EscapeChar(x: char): string {
    if x == '<' then "&lt;" else if x == '>' then "&gt;" else [x]
  }

  /** The reference definition: every character escaped on its own, in order. */
  function EscapeEach(s: string): string {
    if s == [] then "" else EscapeChar(s[0]) + EscapeEach(s[1..])
  }

  /** `simple_escape(html)`; None and "" give "". */
  function SimpleEscape(html: Option<string>): (r: string)
    ensures html.None? || html.value == "" ==> r == ""
    ensures '<' !in r && '>' !in r
  {
    if html.Some? && html.value != "" then ReplaceChar(ReplaceChar(html.value, '<', "&lt;"), '>', "&gt;")
    else ""
  }

  /** `simple_escape` replaces each `<` by `&lt;` and each `>` by `&gt;` and keeps every other character. */
  lemma {:induction false} SimpleEscapeEach(s: string)
    ensures SimpleEscape(Some(s)) == EscapeEach(s)
  {
    if s != [] {
      var head := if s[0] == '<' then "&lt;" else [s[0]];
      var inner := ReplaceChar(s[1..], '<', "&lt;");
      assert ReplaceChar(s, '<', "&lt;") == head + inner;
      ReplaceCharAppend(head, inner, '>', "&gt;");
      assert ReplaceChar(head, '>', "&gt;") == EscapeChar(s[0]);
      SimpleEscapeEach(s[1..]);
      if s[1..] == [] {
        assert inner == [];
        assert ReplaceChar(inner, '>', "&gt;") == EscapeEach(s[1..]);
      }
    }
  }

  /** A string without angle brackets comes back unchanged. */
  lemma SimpleEscapeUnchanged(s: string)
    requires '<' !in s && '>' !in s
    ensures SimpleEscape(Some(s)) == s
  {
  }

  /** Escaping twice is escaping once. */
  lemma SimpleEscapeIdempotent(html: Option<string>)
    ensures SimpleEscape(Some(SimpleEscape(html))) == SimpleEscape(html)
  {
    SimpleEscapeUnchanged(SimpleEscape(html));
  }

  /** What `br_escape` makes of one character. */
  function BreakChar(x: char): string {
    if x == '\n' then "<br/>" else [x]
  }

  function BreakEach(s: string): string {
    if s == [] then "" else BreakChar(s[0]) + BreakEach(s[1..])
  }

  /** `br_escape(html)`; None and "" give "". */
  function BrEscape(html: Option<string>): (r: string)
    ensures html.None? || html.value == "" ==> r == ""
    ensures '\n' !in r
    ensures html.Some? && '\n' !in html.value ==> r == html.value
  {
    if html.Some? && html.value != "" then ReplaceChar(html.value, '\n', "<br/>") else ""
  }

  /** `br_escape` replaces each newline by `<br/>` and keeps every other character. */
  lemma {:induction false} BrEscapeEach(s: string)
    ensures BrEscape(Some(s)) == BreakEach(s)
  {
    if s != [] {
      BrEscapeEach(s[1..]);
    }
  }

  /** `html_escape(html)`: None for None or "", else what `xhtml_escape` returns. */
  function HtmlEscape(html: Option<string>, xhtmlEscape: string -> string): (r: Option<string>)
    ensures r.None? <==> html.None? || html.value == ""
    ensures r.Some? ==> r.value == xhtmlEscape(html.value)
  {
    if html.Some? && html.value != "" then Some(xhtmlEscape(html.value)) else None
  }
}
