/** The text helpers the help formatter relies on (`DESTRealm\Optionally\String`):
    line-ending normalisation, indentation and word wrapping. */
module Strings {
  import opened Php

  // ---------------------------------------------------------------------
  // normalizeLineEndings
  // ---------------------------------------------------------------------

  /** `normalizeLineEndings($text)`: text without a carriage return is returned
      as it is; otherwise every `\r\n` becomes `\n`, then every remaining `\r`
      does too. */
  function NormalizeLineEndings(text: string): (r: string)
    ensures '\r' !in r
    ensures '\r' !in text ==> r == text
  {
    if '\r' !in text then text
    else
      var unix := Replace(text, "\r\n", "\n");
      ReplaceRemovesChar(unix, '\r', "\n");
      Replace(unix, "\r", "\n")
  }

  /** Normalising twice is normalising once. */
  lemma NormalizeIdempotent(text: string)
    ensures NormalizeLineEndings(NormalizeLineEndings(text)) == NormalizeLineEndings(text)
  {
  }

  /** A DOS line end and a lone carriage return both become one line feed. */
  lemma NormalizeExample()
    ensures NormalizeLineEndings("a\r\nb\r") == "a\nb\n"
  {
    var t := "a\r\nb\r";
    assert '\r' in t by { assert t[1] == '\r'; }
    CrLfExample();
    CrExample();
  }

  lemma CrLfExample()
    ensures Replace("a\r\nb\r", "\r\n", "\n") == "a\nb\r"
  {
    var t := "a\r\nb\r";
    assert t[..2] != "\r\n" && t[1..][..2] == "\r\n" && t[3..][..2] != "\r\n";
    assert Replace(t[4..], "\r\n", "\n") == "\r";
    assert Replace(t[3..], "\r\n", "\n") == "b\r";
    assert Replace(t[1..], "\r\n", "\n") == "\n" + Replace(t[3..], "\r\n", "\n");
  }

  lemma CrExample()
    ensures Replace("a\nb\r", "\r", "\n") == "a\nb\n"
  {
    var u := "a\nb\r";
    assert Replace(u[3..], "\r", "\n") == "\n" + Replace([], "\r", "\n");
    assert Replace(u[2..], "\r", "\n") == "b\n";
    assert Replace(u[1..], "\r", "\n") == "\nb\n";
  }

  // ---------------------------------------------------------------------
  // replaceIndent
  // ---------------------------------------------------------------------

  /** `replaceIndent($indent, $replacement, $source)`: false (None) when `indent`
      does not occur in `source` (an empty `indent` never does, as `strpos` with an
      empty needle is false) or `replacement` is longer than `indent`; otherwise
      the text before the first occurrence, the replacement, and `source` from
      the replacement's length on. */
  function ReplaceIndent(indent: string, replacement: string, source: string): (r: Option<string>)
    ensures r.None? <==> IndexOf(source, indent).None? || |replacement| > |indent|
  {
    match IndexOf(source, indent)
    case None => None
    case Some(pos) =>
      if |replacement| > |indent| then None
      else Some(source[..pos] + replacement + source[|replacement|..])
  }

  /** When `source` starts with the placeholder, the replacement overlays it: the
      length is unchanged, the text begins with the replacement, and everything
      after the replacement, including the rest of the placeholder, is kept. */
  lemma ReplaceIndentOverlay(indent: string, replacement: string, source: string)
    requires indent != [] && OccursAt(source, indent, 0) && |replacement| <= |indent|
    ensures ReplaceIndent(indent, replacement, source).Some?
    ensures var o := ReplaceIndent(indent, replacement, source).value;
      |o| == |source| && o[..|replacement|] == replacement && o[|replacement|..] == source[|replacement|..]
      && o[|replacement|..|indent|] == indent[|replacement|..]
  {
    IndexOfSpec(source, indent);
    assert IndexOf(source, indent) == Some(0);
  }

  /** When the placeholder first occurs further in, the text before it appears
      twice: the result is longer than `source` by that offset. */
  lemma ReplaceIndentLength(indent: string, replacement: string, source: string)
    requires ReplaceIndent(indent, replacement, source).Some?
    ensures |ReplaceIndent(indent, replacement, source).value| == |source| + IndexOf(source, indent).value
    ensures ReplaceIndent(indent, replacement, source).value[..IndexOf(source, indent).value]
      == source[..IndexOf(source, indent).value]
  {
  }

  /** An option name laid over the indentation of a description line. */
  lemma ReplaceIndentExample()
    ensures ReplaceIndent("  ", "-x", "  a") == Some("-xa")
  {
    assert "  a"[0..2] == "  " && "  a"[2..] == "a" && "  a"[..0] == [];
    assert [] + "-x" + "a" == "-xa";
    assert OccursAt("  a", "  ", 0);
    IndexOfSpec("  a", "  ");
    assert IndexOf("  a", "  ") == Some(0);
  }

  // ---------------------------------------------------------------------
  // indent
  // ---------------------------------------------------------------------

  /** PCRE `\s`: space, tab, line feed, vertical tab, form feed, carriage return. */
  predicate IsSpace(ch: char) {
    ch == ' ' || '\t' <= ch <= '\r'
  }

  /** One line of `indent`: a line starting with a non-blank character gets the
      spaces in front; an empty line or one starting with white space is kept. */
  function IndentLine(line: string, spaces: nat): string {
    if line != [] && !IsSpace(line[0]) then Spaces(spaces) + line else line
  }

  function IndentLines(lines: seq<string>, spaces: nat): (r: seq<string>)
    ensures |r| == |lines|
    ensures forall k :: 0 <= k < |lines| ==> r[k] == IndentLine(lines[k], spaces)
  {
    if lines == [] then [] else [IndentLine(lines[0], spaces)] + IndentLines(lines[1..], spaces)
  }

  /** `indent($text, $spaces)`: the multi-line pattern `^([^\s]+)` puts the spaces
      in front of every line that starts with a non-blank character. */
  function Indent(text: string, spaces: nat): string {
    Join(IndentLines(Split(text, '\n'), spaces), "\n")
  }

  /** Line by line, the indented text is the input with each line indented or
      kept: it has exactly the input's lines, in order. */
  lemma IndentByLine(text: string, spaces: nat)
    ensures Split(Indent(text, spaces), '\n') == IndentLines(Split(text, '\n'), spaces)
  {
    var lines := IndentLines(Split(text, '\n'), spaces);
    forall k | 0 <= k < |lines| ensures '\n' !in lines[k] {
      assert '\n' !in Split(text, '\n')[k];
      assert '\n' !in Spaces(spaces);
    }
    SplitJoin(lines, '\n');
  }

  /** Indenting by zero spaces changes nothing. */
  lemma IndentZero(text: string)
    ensures Indent(text, 0) == text
  {
    var parts := Split(text, '\n');
    assert Spaces(0) == [];
    assert forall k :: 0 <= k < |parts| ==> IndentLines(parts, 0)[k] == parts[k];
    assert IndentLines(parts, 0) == parts;
    JoinSplit(text, '\n');
  }

  // ---------------------------------------------------------------------
  // wrap
  // ---------------------------------------------------------------------

  /** `strpos` on the chunk `t[lo..hi]`, as a position in `t`: the first
      position of the range that holds `c`, if any. */
  function FirstIn(t: string, c: char, lo: nat, hi: nat): (r: Option<nat>)
    requires lo <= hi <= |t|
    ensures r.Some? ==> lo <= r.value < hi && t[r.value] == c && forall k :: lo <= k < r.value ==> t[k] != c
    ensures r.None? ==> forall k :: lo <= k < hi ==> t[k] != c
    decreases hi - lo
  {
    if lo == hi then None
    else if t[lo] == c then Some(lo)
    else FirstIn(t, c, lo + 1, hi)
  }

  /** `strrpos` on the chunk `t[lo..hi]`, as a position in `t`: the last
      position of the range that holds `c`, if any. */
  function LastIn(t: string, c: char, lo: nat, hi: nat): (r: Option<nat>)
    requires lo <= hi <= |t|
    ensures r.Some? ==> lo <= r.value < hi && t[r.value] == c && forall k :: r.value < k < hi ==> t[k] != c
    ensures r.None? ==> forall k :: lo <= k < hi ==> t[k] != c
    decreases hi - lo
  {
    if lo == hi then None
    else if t[hi - 1] == c then Some(hi - 1)
    else LastIn(t, c, lo, hi - 1)
  }

  /** Where the chunk `t[lo..hi]`, which holds no line feed, is broken: the
      later of its last space and the position just after its last hyphen.
      `strrpos` answers false when there is no hyphen and `false + 1` is 1, so
      a chunk with neither is broken after its first character, never at its
      start. */
  function BreakAt(t: string, lo: nat, hi: nat): (end: nat)
    requires lo <= hi <= |t|
    ensures lo < end <= hi + 1
    ensures lo < hi ==> end <= hi
  {
    var hyphen := match LastIn(t, '-', lo, hi) case Some(h) => h + 1 case None => lo + 1;
    match LastIn(t, ' ', lo, hi)
    case Some(sp) => if sp > hyphen then sp else hyphen
    case None => hyphen
  }

  /** No later break was possible: past the break the chunk holds no hyphen,
      and no space after the break's own position. */
  lemma BreakIsLatest(t: string, lo: nat, hi: nat)
    requires lo <= hi <= |t|
    ensures var end := BreakAt(t, lo, hi);
      forall k :: end <= k < hi ==> t[k] != '-' && (k > end ==> t[k] != ' ')
  {
  }

  /** One step of `wrap`: the line it emits (a line feed follows it) and the
      offset at which the next step starts. */
  datatype WrapStep = WrapStep(line: string, next: nat)

  /** The step `wrap` takes at offset `pos` when the rest does not fit, on the
      chunk `text[pos..pos + columns]`: up to the chunk's first line feed,
      which it steps over, if it holds one; else up to the break, stepping
      over a space found at the break. It always advances, and never past the
      text. */
  function WrapLine(text: string, columns: nat, pos: nat): (s: WrapStep)
    requires pos + columns < |text|
    ensures pos < s.next <= |text|
  {
    var hi := pos + columns;
    match FirstIn(text, '\n', pos, hi)
    case Some(nl) => WrapStep(text[pos..nl], nl + 1)
    case None =>
      var end := BreakAt(text, pos, hi);
      if end < hi && text[end] == ' ' then WrapStep(text[pos..end], end + 1)
      else if end <= hi then WrapStep(text[pos..end], end)
      else WrapStep(text[pos..hi], end)
  }

  /** Each step emits a line of at most `columns` characters without a line
      feed. */
  lemma WrapLineFits(text: string, columns: nat, pos: nat)
    requires pos + columns < |text|
    ensures var s := WrapLine(text, columns, pos);
      '\n' !in s.line && |s.line| <= columns
  {
    var hi := pos + columns;
    var s := WrapLine(text, columns, pos);
    assert forall k :: 0 <= k < |s.line| ==> s.line[k] == text[pos + k];
  }

  /** With at least one column, each step consumes exactly the line it emits
      and, after it, nothing, the line feed it had, or the space it broke at. */
  lemma WrapLineConsumes(text: string, columns: nat, pos: nat)
    requires 1 <= columns && pos + columns < |text|
    ensures var s := WrapLine(text, columns, pos);
      text[pos..s.next] == s.line || text[pos..s.next] == s.line + " " || text[pos..s.next] == s.line + "\n"
  {
    if FirstIn(text, '\n', pos, pos + columns).Some? {
      ConsumesLineFeed(text, columns, pos);
    } else {
      ConsumesToBreak(text, columns, pos);
    }
  }

  lemma ConsumesLineFeed(text: string, columns: nat, pos: nat)
    requires pos + columns < |text| && FirstIn(text, '\n', pos, pos + columns).Some?
    ensures var s := WrapLine(text, columns, pos);
      text[pos..s.next] == s.line + "\n"
  {
    var nl := FirstIn(text, '\n', pos, pos + columns).value;
    assert text[pos..nl + 1] == text[pos..nl] + "\n";
  }

  lemma ConsumesToBreak(text: string, columns: nat, pos: nat)
    requires 1 <= columns && pos + columns < |text| && FirstIn(text, '\n', pos, pos + columns).None?
    ensures var s := WrapLine(text, columns, pos);
      text[pos..s.next] == s.line || text[pos..s.next] == s.line + " "
  {
    var end := BreakAt(text, pos, pos + columns);
    if end < pos + columns && text[end] == ' ' {
      assert text[pos..end + 1] == text[pos..end] + " ";
    }
  }

  /** `wrap` from offset `pos` of the normalised text: the rest as it is once it
      fits, else one step's line, a line feed, and the rest wrapped. */
  function WrapFrom(text: string, columns: nat, pos: nat): string
    requires pos <= |text|
    decreases |text| - pos
  {
    if pos + columns >= |text| then text[pos..]
    else
      var s := WrapLine(text, columns, pos);
      s.line + "\n" + WrapFrom(text, columns, s.next)
  }

  /** `wrap($text, $columns)` */
  function Wrapped(text: string, columns: nat): string {
    WrapFrom(NormalizeLineEndings(text), columns, 0)
  }

  /** Every line of `s` (the pieces between line feeds) has at most `columns` characters. */
  predicate LinesFit(s: string, columns: nat)
    decreases |s|
  {
    match FirstIndex(s, '\n')
    case None => |s| <= columns
    case Some(i) => i <= columns && LinesFit(s[i + 1..], columns)
  }

  lemma {:induction false} ShortLinesFit(s: string, columns: nat)
    requires |s| <= columns
    ensures LinesFit(s, columns)
    decreases |s|
  {
    match FirstIndex(s, '\n')
    case None =>
    case Some(i) => ShortLinesFit(s[i + 1..], columns);
  }

  lemma LinesFitCons(line: string, rest: string, columns: nat)
    requires '\n' !in line && |line| <= columns && LinesFit(rest, columns)
    ensures LinesFit(line + "\n" + rest, columns)
  {
    var s := line + "\n" + rest;
    assert s[|line|] == '\n';
    assert forall j :: 0 <= j < |line| ==> s[j] == line[j];
    assert FirstIndex(s, '\n') == Some(|line|);
    assert s[|line| + 1..] == rest;
  }

  /** No line that `wrap` produces is longer than `columns`. */
  lemma {:induction false} WrapFits(text: string, columns: nat, pos: nat)
    requires pos <= |text|
    ensures LinesFit(WrapFrom(text, columns, pos), columns)
    decreases |text| - pos
  {
    if pos + columns >= |text| {
      ShortLinesFit(text[pos..], columns);
    } else {
      var s := WrapLine(text, columns, pos);
      WrapLineFits(text, columns, pos);
      WrapFits(text, columns, s.next);
      LinesFitCons(s.line, WrapFrom(text, columns, s.next), columns);
    }
  }

  /** `out` is `src` with line feeds inserted, each of which may take the place
      of one space. */
  ghost predicate Rewraps(out: string, src: string)
    decreases |out|
  {
    if out == [] then src == []
    else
      (src != [] && out[0] == src[0] && Rewraps(out[1..], src[1..]))
      || (out[0] == '\n' && Rewraps(out[1..], src))
      || (out[0] == '\n' && src != [] && src[0] == ' ' && Rewraps(out[1..], src[1..]))
  }

  lemma {:induction false} RewrapsCopy(p: string, out: string, src: string)
    requires Rewraps(out, src)
    ensures Rewraps(p + out, p + src)
  {
    if p != [] {
      RewrapsCopy(p[1..], out, src);
      assert (p + out)[1..] == p[1..] + out;
      assert (p + src)[1..] == p[1..] + src;
      assert p + src != [] && (p + out)[0] == (p + src)[0];
      assert Rewraps((p + out)[1..], (p + src)[1..]);
    } else {
      assert p + out == out && p + src == src;
    }
  }

  lemma {:induction false} RewrapsSelf(s: string)
    ensures Rewraps(s, s)
  {
    RewrapsCopy(s, [], []);
    assert s + [] == s;
  }

  /** A line followed by an inserted line feed rewraps the line followed by
      nothing, by a line feed, or by a space the line feed replaces. */
  lemma RewrapsBreak(line: string, consumed: string, w: string, rest: string)
    requires consumed == line || consumed == line + " " || consumed == line + "\n"
    requires Rewraps(w, rest)
    ensures Rewraps(line + "\n" + w, consumed + rest)
  {
    var gap := consumed[|line|..];
    assert consumed == line + gap;
    assert Rewraps("\n" + w, gap + rest) by {
      assert ("\n" + w)[1..] == w;
      if gap == [] {
        assert gap + rest == rest;
      } else {
        assert (gap + rest)[1..] == rest;
      }
    }
    RewrapsCopy(line, "\n" + w, gap + rest);
    assert line + ("\n" + w) == line + "\n" + w;
    assert line + (gap + rest) == consumed + rest;
  }

  /** With at least one column, `wrap` only inserts line feeds, each breaking
      after a hyphen or a full chunk, or in place of one space: the text itself
      is kept. */
  lemma {:induction false} WrapKeepsText(text: string, columns: nat, pos: nat)
    requires 1 <= columns && pos <= |text|
    ensures Rewraps(WrapFrom(text, columns, pos), text[pos..])
    decreases |text| - pos
  {
    if pos + columns >= |text| {
      RewrapsSelf(text[pos..]);
    } else {
      var s := WrapLine(text, columns, pos);
      WrapLineConsumes(text, columns, pos);
      WrapKeepsText(text, columns, s.next);
      assert text[pos..] == text[pos..s.next] + text[s.next..];
      RewrapsBreak(s.line, text[pos..s.next], WrapFrom(text, columns, s.next), text[s.next..]);
    }
  }

  /** A run without a space or hyphen is broken after its first character, one
      character per line, until the rest fits. */
  lemma WrapUnbrokenWord()
    ensures Wrapped("abcd", 2) == "a\nb\ncd"
  {
    var t := "abcd";
    assert '\r' !in t;
    assert WrapLine(t, 2, 0) == WrapStep("a", 1) by {
      assert FirstIn(t, '\n', 0, 2).None? && BreakAt(t, 0, 2) == 1;
    }
    assert WrapLine(t, 2, 1) == WrapStep("b", 2) by {
      assert FirstIn(t, '\n', 1, 3).None? && BreakAt(t, 1, 3) == 2;
    }
    assert WrapFrom(t, 2, 2) == "cd";
    assert WrapFrom(t, 2, 1) == "b\ncd";
  }

  /** With no columns each step emits an empty line and steps over one
      character: the text is lost. */
  lemma WrapZeroColumns()
    ensures Wrapped("ab", 0) == "\n\n"
  {
    var t := "ab";
    assert WrapLine(t, 0, 0) == WrapStep([], 1);
    assert WrapLine(t, 0, 1) == WrapStep([], 2);
    assert WrapFrom(t, 0, 2) == [];
    assert WrapFrom(t, 0, 1) == "\n";
  }

  /** What `wrap` promises of its result: no line longer than `columns`;
      text that fits comes back normalised and otherwise unchanged; with at
      least one column, the normalised text with line feeds inserted. */
  lemma WrappedSpec(text: string, columns: nat)
    ensures LinesFit(Wrapped(text, columns), columns)
    ensures |NormalizeLineEndings(text)| <= columns ==> Wrapped(text, columns) == NormalizeLineEndings(text)
    ensures 1 <= columns ==> Rewraps(Wrapped(text, columns), NormalizeLineEndings(text))
  {
    var t := NormalizeLineEndings(text);
    WrapFits(t, columns, 0);
    if 1 <= columns {
      WrapKeepsText(t, columns, 0);
    }
  }

  /** `wrap($text, $columns)` as the loop the source runs: `pos` only grows, so
      the loop ends, and the buffer it returns is the specification above. */
  method Wrap(text: string, columns: nat) returns (buf: string)
    ensures buf == Wrapped(text, columns)
  {
    var t := NormalizeLineEndings(text);
    var pos: nat := 0;
    buf := "";
    while true
      invariant pos <= |t|
      invariant WrapFrom(t, columns, 0) == buf + WrapFrom(t, columns, pos)
      decreases |t| - pos
    {
      if pos + columns >= |t| {
        buf := buf + t[pos..];
        break;
      }
      var step := WrapLine(t, columns, pos);
      KeepPrefix(WrapFrom(t, columns, 0), buf, WrapFrom(t, columns, pos), step.line, WrapFrom(t, columns, step.next));
      buf := buf + step.line + "\n";
      pos := step.next;
    }
  }

  lemma KeepPrefix(whole: string, buf: string, rest: string, line: string, after: string)
    requires whole == buf + rest && rest == line + "\n" + after
    ensures whole == buf + line + "\n" + after
  {
  }
}
