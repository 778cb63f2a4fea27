/**
 * db_addslashes: escaping of a string literal before it is inlined into SQL
 * sent to the external database. The mode is chosen by the plugin setting
 * `dbsybasequoting` (PHP truthiness). With the setting on, backslashes are
 * doubled and then quote, double quote and NUL get a backslash escape; with
 * it off, every apostrophe is doubled.
 *
 * Each str_replace pass is modelled as its own function, so AddSlashes has the
 * shape of the source; the lemmas show that the passes together act as a
 * per-character escape and that each mode has an exact inverse.
 */
module Escaping {
  import opened Php

  /** str_replace with a one-character search string: every occurrence of c becomes rep. */
  function ReplaceAll(s: string, c: char, rep: string): (t: string)
    ensures c !in s ==> t == s
  {
    if s == [] then [] else (if s[0] == c then rep else [s[0]]) + ReplaceAll(s[1..], c, rep)
  }

  /** The second call of the sybase branch: three pairs, replaced one after the other. */
  function QuotePasses(s: string): string {
    ReplaceAll(ReplaceAll(ReplaceAll(s, '\'', "\\'"), '"', "\\\""), '\0', "\\0")
  }

  function AddSlashes(text: string, sybaseQuoting: Cell): string {
    if Truthy(sybaseQuoting) then QuotePasses(ReplaceAll(text, '\\', "\\\\"))
    else ReplaceAll(text, '\'', "''")
  }

  /** What the sybase branch does to one character. */
  function SybaseEscape(c: char): string {
    if c == '\\' then "\\\\"
    else if c == '\'' then "\\'"
    else if c == '"' then "\\\""
    else if c == '\0' then "\\0"
    else [c]
  }

  /** What the default branch does to one character. */
  function StandardEscape(c: char): string {
    if c == '\'' then "''" else [c]
  }

  function EscapeChar(c: char, sybase: bool): string {
    if sybase then SybaseEscape(c) else StandardEscape(c)
  }

  /** The reference reading: escape every character on its own and concatenate. */
  function EscapeEach(s: string, sybase: bool): string {
    if s == [] then [] else EscapeChar(s[0], sybase) + EscapeEach(s[1..], sybase)
  }

  lemma {:induction false} ReplaceAllAppend(a: string, b: string, c: char, rep: string)
    ensures ReplaceAll(a + b, c, rep) == ReplaceAll(a, c, rep) + ReplaceAll(b, c, rep)
  {
    if a == [] {
      assert a + b == b;
    } else {
      assert (a + b)[0] == a[0];
      assert (a + b)[1..] == a[1..] + b;
      ReplaceAllAppend(a[1..], b, c, rep);
    }
  }

  lemma QuotePassesAppend(a: string, b: string)
    ensures QuotePasses(a + b) == QuotePasses(a) + QuotePasses(b)
  {
    var a1, b1 := ReplaceAll(a, '\'', "\\'"), ReplaceAll(b, '\'', "\\'");
    ReplaceAllAppend(a, b, '\'', "\\'");
    var a2, b2 := ReplaceAll(a1, '"', "\\\""), ReplaceAll(b1, '"', "\\\"");
    ReplaceAllAppend(a1, b1, '"', "\\\"");
    ReplaceAllAppend(a2, b2, '\0', "\\0");
  }

  /** The sequential passes of the sybase branch, applied to one character. */
  lemma SybaseOneChar(c: char)
    ensures QuotePasses(ReplaceAll([c], '\\', "\\\\")) == SybaseEscape(c)
  {
    assert [c][1..] == [];
    if c == '\\' {
      var s := ReplaceAll([c], '\\', "\\\\");
      assert s == ['\\'] + ['\\'];
      QuotePassesAppend(['\\'], ['\\']);
      assert QuotePasses(['\\']) == "\\" by {
        assert ['\\'][1..] == [];
      }
    } else {
      assert ReplaceAll([c], '\\', "\\\\") == [c];
      var p1 := ReplaceAll([c], '\'', "\\'");
      if c == '\'' {
        assert p1 == ['\\'] + ['\''];
        ReplaceAllAppend(['\\'], ['\''], '"', "\\\"");
        ReplaceAllAppend(['\\'], ['\''], '\0', "\\0");
        assert ['\\'][1..] == [] && ['\''][1..] == [];
      } else if c == '"' {
        assert p1 == [c];
        var p2 := ReplaceAll(p1, '"', "\\\"");
        assert p2 == ['\\'] + ['"'];
        ReplaceAllAppend(['\\'], ['"'], '\0', "\\0");
        assert ['\\'][1..] == [] && ['"'][1..] == [];
      } else if c == '\0' {
        assert p1 == [c];
        assert ReplaceAll(p1, '"', "\\\"") == [c];
      } else {
        assert p1 == [c];
        assert ReplaceAll(p1, '"', "\\\"") == [c];
      }
    }
  }

  /**
   * The str_replace passes of both branches amount to escaping every
   * character on its own: no pass re-escapes what an earlier pass inserted.
   */
  lemma {:induction false} AddSlashesPerChar(s: string, sybaseQuoting: Cell)
    ensures AddSlashes(s, sybaseQuoting) == EscapeEach(s, Truthy(sybaseQuoting))
  {
    if s != [] {
      AddSlashesPerChar(s[1..], sybaseQuoting);
      assert s == [s[0]] + s[1..];
      assert [s[0]][1..] == [];
      if Truthy(sybaseQuoting) {
        ReplaceAllAppend([s[0]], s[1..], '\\', "\\\\");
        QuotePassesAppend(ReplaceAll([s[0]], '\\', "\\\\"), ReplaceAll(s[1..], '\\', "\\\\"));
        SybaseOneChar(s[0]);
      } else {
        ReplaceAllAppend([s[0]], s[1..], '\'', "''");
      }
    }
  }

  /** Inverse of the default branch: every "''" collapses back to one apostrophe. */
  function CollapseQuotes(t: string): string {
    if |t| >= 2 && t[0] == '\'' && t[1] == '\'' then "'" + CollapseQuotes(t[2..])
    else if t == [] then []
    else [t[0]] + CollapseQuotes(t[1..])
  }

  /** Inverse of the sybase branch: a backslash and the character after it stand for one character. */
  function StripSlashes(t: string): string {
    if |t| >= 2 && t[0] == '\\' then [Unescaped(t[1])] + StripSlashes(t[2..])
    else if t == [] then []
    else [t[0]] + StripSlashes(t[1..])
  }

  function Unescaped(c: char): char {
    if c == '0' then '\0' else c
  }

  lemma {:induction false} CollapseEscapeEach(s: string)
    ensures CollapseQuotes(EscapeEach(s, false)) == s
  {
    if s != [] {
      var rest := EscapeEach(s[1..], false);
      CollapseEscapeEach(s[1..]);
      if s[0] == '\'' {
        assert ("''" + rest)[2..] == rest;
      } else {
        assert ([s[0]] + rest)[1..] == rest;
      }
    }
  }

  lemma {:induction false} StripEscapeEach(s: string)
    ensures StripSlashes(EscapeEach(s, true)) == s
  {
    if s != [] {
      var rest := EscapeEach(s[1..], true);
      StripEscapeEach(s[1..]);
      var e := SybaseEscape(s[0]);
      if |e| == 2 {
        assert (e + rest)[2..] == rest;
      } else {
        assert ([s[0]] + rest)[1..] == rest;
      }
    }
  }

  /**
   * Without sybase quoting every apostrophe is doubled and nothing else
   * changes, so collapsing doubled apostrophes recovers the input.
   */
  lemma StandardRoundTrip(s: string, sybaseQuoting: Cell)
    requires !Truthy(sybaseQuoting)
    ensures AddSlashes(s, sybaseQuoting) == EscapeEach(s, false)
    ensures CollapseQuotes(AddSlashes(s, sybaseQuoting)) == s
  {
    AddSlashesPerChar(s, sybaseQuoting);
    CollapseEscapeEach(s);
  }

  /**
   * With sybase quoting on, `\`, `'`, `"` and NUL become `\\`, `\'`, `\"` and
   * `\0`, every other character is kept, and stripping the backslash escapes
   * recovers the input.
   */
  lemma SybaseRoundTrip(s: string, sybaseQuoting: Cell)
    requires Truthy(sybaseQuoting)
    ensures AddSlashes(s, sybaseQuoting) == EscapeEach(s, true)
    ensures StripSlashes(AddSlashes(s, sybaseQuoting)) == s
  {
    AddSlashesPerChar(s, sybaseQuoting);
    StripEscapeEach(s);
  }
}
