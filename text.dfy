/**
 * The few Python string operations the readers rely on: `str.strip()`,
 * `str.upper()` and `str.split(',')`. Stripping removes every character Python
 * counts as whitespace; upper-casing maps the ASCII letters only.
 */
module Text {

  /** The characters `str.strip()` removes, those of `str.isspace()`: tab, newline,
      vertical tab, form feed and carriage return (U+0009 to U+000D), the four ASCII
      separators U+001C to U+001F, space, and the Unicode spaces and line breaks
      U+0085, U+00A0, U+1680, U+2000 to U+200A, U+2028, U+2029, U+202F, U+205F and
      U+3000. */
  predicate IsSpace(c: char) {
    || '\U{09}' <= c <= '\U{0D}'
    || '\U{1C}' <= c <= '\U{20}'
    || c == '\U{85}' || c == '\U{A0}' || c == '\U{1680}'
    || '\U{2000}' <= c <= '\U{200A}'
    || c == '\U{2028}' || c == '\U{2029}' || c == '\U{202F}' || c == '\U{205F}' || c == '\U{3000}'
  }

  /** Removes leading whitespace. */
  function TrimStart(s: string): string
    decreases |s|
  {
    if s != [] && IsSpace(s[0]) then TrimStart(s[1..]) else s
  }

  /** Removes trailing whitespace. */
  function TrimEnd(s: string): string
    decreases |s|
  {
    if s != [] && IsSpace(s[|s| - 1]) then TrimEnd(s[..|s| - 1]) else s
  }

  /** Python's `s.strip()`. */
  function Strip(s: string): string
  {
    TrimEnd(TrimStart(s))
  }

  /** `TrimStart` keeps the longest suffix that does not start with whitespace. */
  lemma {:induction false} TrimStartKeepsSuffix(s: string)
    ensures var r := TrimStart(s);
      && |r| <= |s| && r == s[|s| - |r|..]
      && (forall i :: 0 <= i < |s| - |r| ==> IsSpace(s[i]))
      && (r != [] ==> !IsSpace(r[0]))
    decreases |s|
  {
    if s != [] && IsSpace(s[0]) {
      TrimStartKeepsSuffix(s[1..]);
    }
  }

  /** `TrimEnd` keeps the longest prefix that does not end with whitespace. */
  lemma {:induction false} TrimEndKeepsPrefix(s: string)
    ensures var r := TrimEnd(s);
      && |r| <= |s| && r == s[..|r|]
      && (forall i :: |r| <= i < |s| ==> IsSpace(s[i]))
      && (r != [] ==> !IsSpace(r[|r| - 1]))
    decreases |s|
  {
    if s != [] && IsSpace(s[|s| - 1]) {
      TrimEndKeepsPrefix(s[..|s| - 1]);
    }
  }

  /** `s.strip()` is empty exactly when `s` consists of whitespace only. */
  lemma StripEmptyIffBlank(s: string)
    ensures Strip(s) == "" <==> forall i :: 0 <= i < |s| ==> IsSpace(s[i])
  {
    var t := TrimStart(s);
    TrimStartKeepsSuffix(s);
    TrimEndKeepsPrefix(t);
    if Strip(s) == "" {
      assert t == [];
    } else {
      var r := Strip(s);
      assert r[0] == t[0];
      assert t[0] == s[|s| - |t|];
    }
  }

  /** A stripped string neither starts nor ends with whitespace. */
  lemma StripHasNoOuterSpace(s: string)
    ensures var r := Strip(s); r != "" ==> !IsSpace(r[0]) && !IsSpace(r[|r| - 1])
  {
    var t := TrimStart(s);
    TrimStartKeepsSuffix(s);
    TrimEndKeepsPrefix(t);
    var r := Strip(s);
    if r != "" {
      assert r[0] == t[0];
    }
  }

  function UpperChar(c: char): char {
    if 'a' <= c <= 'z' then (c as int - 'a' as int + 'A' as int) as char else c
  }

  /** Python's `s.upper()`, restricted to ASCII letters. */
  function Upper(s: string): (r: string)
    ensures |r| == |s|
    ensures forall i :: 0 <= i < |s| ==> ('a' <= s[i] <= 'z' ==> r[i] as int == s[i] as int - 32) && (!('a' <= s[i] <= 'z') ==> r[i] == s[i])
    ensures forall i :: 0 <= i < |r| ==> !('a' <= r[i] <= 'z')
  {
    seq(|s|, i requires 0 <= i < |s| => UpperChar(s[i]))
  }

  /** Glues pieces back together with the separator between consecutive pieces. */
  function Join(pieces: seq<string>, sep: char): string
  {
    if pieces == [] then ""
    else if |pieces| == 1 then pieces[0]
    else pieces[0] + [sep] + Join(pieces[1..], sep)
  }

  /** Python's `s.split(sep)` for a single-character separator: always at least one piece. */
  function Split(s: string, sep: char): (r: seq<string>)
    ensures |r| >= 1
  {
    if s == [] then [""]
    else
      var rest := Split(s[1..], sep);
      if s[0] == sep then [""] + rest
      else [[s[0]] + rest[0]] + rest[1..]
  }

  /** No piece of a split contains the separator, and joining the pieces gives the
      string back. */
  lemma {:induction false} SplitJoin(s: string, sep: char)
    ensures forall i :: 0 <= i < |Split(s, sep)| ==> sep !in Split(s, sep)[i]
    ensures Join(Split(s, sep), sep) == s
  {
    if s != [] {
      SplitJoin(s[1..], sep);
      var rest := Split(s[1..], sep);
      if s[0] != sep {
        assert Split(s, sep)[1..] == rest[1..];
        if |rest| > 1 {
          assert rest == [rest[0]] + rest[1..];
        }
      }
    }
  }

  /** A string without the separator splits into itself alone. */
  lemma {:induction false} SplitWithoutSeparator(s: string, sep: char)
    requires sep !in s
    ensures Split(s, sep) == [s]
  {
    if s != [] {
      assert sep !in s[1..];
      SplitWithoutSeparator(s[1..], sep);
      assert s == [s[0]] + s[1..];
    }
  }
  /** A piece without the separator, followed by the separator, is split off whole. */
  lemma {:induction false} SplitAfterPiece(a: string, t: string, sep: char)
    requires sep !in a
    ensures Split(a + [sep] + t, sep) == [a] + Split(t, sep)
    decreases |a|
  {
    var s := a + [sep] + t;
    if a == [] {
      assert s == [sep] + t && s[1..] == t;
    } else {
      assert s[0] == a[0] && s[1..] == a[1..] + [sep] + t;
      SplitAfterPiece(a[1..], t, sep);
      assert [a[0]] + a[1..] == a;
    }
  }

  /** Splitting what `Join` glued together gives the pieces back, when there is at
      least one piece and none contains the separator: with `SplitJoin`, splitting and
      joining are inverses. */
  lemma {:induction false} JoinSplit(pieces: seq<string>, sep: char)
    requires pieces != [] && forall i :: 0 <= i < |pieces| ==> sep !in pieces[i]
    ensures Split(Join(pieces, sep), sep) == pieces
    decreases |pieces|
  {
    if |pieces| == 1 {
      SplitWithoutSeparator(pieces[0], sep);
    } else {
      JoinSplit(pieces[1..], sep);
      SplitAfterPiece(pieces[0], Join(pieces[1..], sep), sep);
      assert pieces == [pieces[0]] + pieces[1..];
    }
  }

}
