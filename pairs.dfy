/**
 * The pair model of cmd/root.go: a declaration "source , dest" is split on every
 * comma (strings.Split), the first piece becomes the source and the last piece
 * the destination, and both are trimmed (strings.TrimSpace). The template
 * rendering that follows the split lives in module Pipeline.
 */
module Pairs {

  /** A `file` of cmd/root.go: where to fetch from and where the result goes. */
  datatype Pair = Pair(source: string, dest: string) {
    /** An in-place pair is rendered where it is and never fetched. */
    predicate InPlace() { source == dest }
  }

  /** Go's unicode.IsSpace, the predicate strings.TrimSpace trims by. */
  predicate IsSpace(c: char) {
    || c == ' ' || c == '\t' || c == '\n' || c == '\r'
    || c == '\U{000B}' || c == '\U{000C}' || c == '\U{0085}' || c == '\U{00A0}'
    || c == '\U{1680}' || ('\U{2000}' <= c <= '\U{200A}')
    || c == '\U{2028}' || c == '\U{2029}' || c == '\U{202F}' || c == '\U{205F}' || c == '\U{3000}'
  }

  /** The number of white-space characters at the front of `s`. */
  function LeadingSpace(s: string): (n: nat)
    ensures n <= |s|
    ensures forall i :: 0 <= i < n ==> IsSpace(s[i])
    ensures n < |s| ==> !IsSpace(s[n])
  {
    if |s| > 0 && IsSpace(s[0]) then 1 + LeadingSpace(s[1..]) else 0
  }

  /** The number of white-space characters at the back of `s`. */
  function TrailingSpace(s: string): (n: nat)
    ensures n <= |s|
    ensures forall i :: |s| - n <= i < |s| ==> IsSpace(s[i])
    ensures n < |s| ==> !IsSpace(s[|s| - n - 1])
  {
    if |s| > 0 && IsSpace(s[|s| - 1]) then 1 + TrailingSpace(s[..|s| - 1]) else 0
  }

  /**
   * strings.TrimSpace: the longest infix of `s` that neither starts nor ends
   * with white space, everything around it being white space.
   */
  function TrimSpace(s: string): (r: string)
    ensures LeadingSpace(s) + |r| <= |s|
    ensures r == s[LeadingSpace(s)..LeadingSpace(s) + |r|]
    ensures forall i :: 0 <= i < LeadingSpace(s) ==> IsSpace(s[i])
    ensures forall i :: LeadingSpace(s) + |r| <= i < |s| ==> IsSpace(s[i])
    ensures r != [] ==> !IsSpace(r[0]) && !IsSpace(r[|r| - 1])
  {
    var t := s[LeadingSpace(s)..];
    t[..|t| - TrailingSpace(t)]
  }

  /** Text that is empty or has no white space at either end is left as it is. */
  lemma TrimSpaceKeepsTrimmed(s: string)
    requires s != [] ==> !IsSpace(s[0]) && !IsSpace(s[|s| - 1])
    ensures TrimSpace(s) == s
  {
    var t := s[LeadingSpace(s)..];
    assert t == s;
    assert TrailingSpace(t) == 0;
  }

  /** Trimming twice is trimming once. */
  lemma TrimSpaceIdempotent(s: string)
    ensures TrimSpace(TrimSpace(s)) == TrimSpace(s)
  {
    TrimSpaceKeepsTrimmed(TrimSpace(s));
  }

  /** strings.Split(s, sep): the pieces of `s` between the separators, at least one. */
  function Split(s: string, sep: char): (pieces: seq<string>)
    ensures |pieces| >= 1
    ensures forall i :: 0 <= i < |pieces| ==> sep !in pieces[i]
  {
    if s == [] then [[]]
    else
      var rest := Split(s[1..], sep);
      if s[0] == sep then [[]] + rest else [[s[0]] + rest[0]] + rest[1..]
  }

  /** strings.Join(pieces, sep) for a non-empty list. */
  function Join(pieces: seq<string>, sep: char): string
    requires |pieces| >= 1
  {
    if |pieces| == 1 then pieces[0] else pieces[0] + [sep] + Join(pieces[1..], sep)
  }

  /** Splitting loses nothing: joining the pieces gives back the text. */
  lemma {:induction false} JoinSplit(s: string, sep: char)
    ensures Join(Split(s, sep), sep) == s
  {
    if s != [] {
      var rest := Split(s[1..], sep);
      JoinSplit(s[1..], sep);
      if s[0] == sep {
        assert Split(s, sep)[1..] == rest;
      } else {
        var p := Split(s, sep);
        assert p[1..] == rest[1..];
        if |rest| == 1 {
          assert p == [[s[0]] + rest[0]];
        } else {
          assert Join(rest, sep) == rest[0] + [sep] + Join(rest[1..], sep);
          assert Join(p, sep) == [s[0]] + rest[0] + [sep] + Join(rest[1..], sep);
          assert s == [s[0]] + s[1..];
        }
      }
    }
  }

  /** And the other way round: separator-free pieces are what splitting their join gives. */
  lemma {:induction false} SplitJoin(pieces: seq<string>, sep: char)
    requires |pieces| >= 1
    requires forall i :: 0 <= i < |pieces| ==> sep !in pieces[i]
    ensures Split(Join(pieces, sep), sep) == pieces
  {
    if |pieces| == 1 {
      SplitWithoutSeparator(pieces[0], sep);
    } else {
      SplitJoin(pieces[1..], sep);
      SplitPrefix(pieces[0], Join(pieces[1..], sep), sep);
      assert pieces == [pieces[0]] + pieces[1..];
    }
  }

  /** Text without the separator splits into itself alone. */
  lemma {:induction false} SplitWithoutSeparator(s: string, sep: char)
    requires sep !in s
    ensures Split(s, sep) == [s]
  {
    if s != [] {
      SplitWithoutSeparator(s[1..], sep);
      assert [s[0]] + s[1..] == s;
    }
  }

  /** Splitting `a + [sep] + b` for separator-free `a` puts `a` in front of the pieces of `b`. */
  lemma {:induction false} SplitPrefix(a: string, b: string, sep: char)
    requires sep !in a
    ensures Split(a + [sep] + b, sep) == [a] + Split(b, sep)
  {
    if a == [] {
      assert ([] + [sep] + b)[1..] == b;
    } else {
      SplitPrefix(a[1..], b, sep);
      assert (a + [sep] + b)[1..] == a[1..] + [sep] + b;
      assert [a[0]] + a[1..] == a;
    }
  }

  /** Only text without the separator splits into a single piece. */
  lemma SplitSingleOnlyWithoutSeparator(s: string, sep: char)
    requires |Split(s, sep)| == 1
    ensures sep !in s
  {
    JoinSplit(s, sep);
    var p := Split(s, sep);
    assert Join(p, sep) == p[0];
  }

  /** Text that splits into several pieces holds the separator. */
  lemma SplitManyHasSeparator(s: string, sep: char)
    requires |Split(s, sep)| > 1
    ensures sep in s
  {
    if sep !in s {
      SplitWithoutSeparator(s, sep);
    }
  }

  /** The first piece is the text in front of the first separator. */
  lemma {:induction false} FirstPiece(s: string, sep: char)
    ensures var f := Split(s, sep)[0];
      |f| <= |s| && f == s[..|f|] && (|f| < |s| ==> s[|f|] == sep)
  {
    if s != [] {
      FirstPiece(s[1..], sep);
    }
  }

  /** The last piece is the text behind the last separator. */
  lemma {:induction false} LastPiece(s: string, sep: char)
    ensures var p := Split(s, sep); var l := p[|p| - 1];
      |l| <= |s| && l == s[|s| - |l|..] && (|l| < |s| ==> s[|s| - |l| - 1] == sep)
  {
    if s != [] {
      LastPiece(s[1..], sep);
      var rest := Split(s[1..], sep);
      var p := Split(s, sep);
      var l := p[|p| - 1];
      if s[0] == sep {
        assert p == [[]] + rest;
      } else if |rest| == 1 {
        SplitSingleOnlyWithoutSeparator(s[1..], sep);
        SplitWithoutSeparator(s[1..], sep);
        assert p == [[s[0]] + s[1..]];
        assert [s[0]] + s[1..] == s;
      } else {
        SplitManyHasSeparator(s[1..], sep);
        assert l == rest[|rest| - 1];
        assert |l| < |s| - 1;
      }
    }
  }

  /** The first loop body of parseFilePairs (cmd/root.go:199-203), before rendering. */
  function ParseDeclaration(v: string): Pair {
    var pieces := Split(v, ',');
    Pair(TrimSpace(pieces[0]), TrimSpace(pieces[|pieces| - 1]))
  }

  /** The source is the trimmed text in front of the first comma (index `i`, or |v| if none). */
  lemma SourceBeforeFirstComma(v: string, i: nat)
    requires i <= |v| && ',' !in v[..i] && (i < |v| ==> v[i] == ',')
    ensures ParseDeclaration(v).source == TrimSpace(v[..i])
  {
    FirstPiece(v, ',');
  }

  /** The destination is the trimmed text behind the last comma (at `j - 1`, or none if `j` is 0). */
  lemma DestAfterLastComma(v: string, j: nat)
    requires j <= |v| && ',' !in v[j..] && (j > 0 ==> v[j - 1] == ',')
    ensures ParseDeclaration(v).dest == TrimSpace(v[j..])
  {
    LastPiece(v, ',');
  }

  /** A declaration without a comma is an in-place pair of its trimmed text. */
  lemma NoCommaInPlace(v: string)
    requires ',' !in v
    ensures ParseDeclaration(v) == Pair(TrimSpace(v), TrimSpace(v))
    ensures ParseDeclaration(v).InPlace()
  {
    SplitWithoutSeparator(v, ',');
  }

  /**
   * A declaration with a single comma pairs the trimmed text on either side of
   * it; `src` and `dst` name those trimmed texts.
   */
  lemma SingleComma(a: string, b: string, src: string, dst: string)
    requires ',' !in a && ',' !in b
    requires TrimSpace(a) == src && TrimSpace(b) == dst
    ensures ParseDeclaration(a + [','] + b) == Pair(src, dst)
  {
    SplitPrefix(a, b, ',');
    SplitWithoutSeparator(b, ',');
  }

  /** A declaration without a comma is the in-place pair of its trimmed text `t`. */
  lemma NoComma(v: string, t: string)
    requires ',' !in v && TrimSpace(v) == t
    ensures ParseDeclaration(v) == Pair(t, t)
  {
    NoCommaInPlace(v);
  }

  /** The trimmed halves of the declarations of cmd/root_test.go:30-32. */
  lemma TrimSpaceExamples()
    ensures TrimSpace(" /foo ") == "/foo"
    ensures TrimSpace(" /bar   ") == "/bar"
  {
    TrimExample(" /foo ", "/foo", 1, 1);
    TrimExample(" /bar   ", "/bar", 1, 3);
  }

  /** The declaration " /foo , /bar   " of cmd/root_test.go:30. */
  lemma ParseDeclarationPairExample()
    ensures ParseDeclaration(" /foo " + "," + " /bar   ") == Pair("/foo", "/bar")
  {
    TrimSpaceExamples();
    SingleComma(" /foo ", " /bar   ", "/foo", "/bar");
  }

  /** The declaration " /foo " of cmd/root_test.go:32: no comma, so an in-place pair. */
  lemma ParseDeclarationInPlaceExample()
    ensures ParseDeclaration(" /foo ") == Pair("/foo", "/foo")
  {
    TrimSpaceExamples();
    NoComma(" /foo ", "/foo");
  }

  /** Trimming `lead` spaces and `trail` spaces from around `r`. */
  lemma TrimExample(s: string, r: string, lead: nat, trail: nat)
    requires r != [] && !IsSpace(r[0]) && !IsSpace(r[|r| - 1])
    requires lead + |r| + trail == |s|
    requires forall i :: 0 <= i < |r| ==> s[lead + i] == r[i]
    requires forall i :: 0 <= i < lead ==> s[i] == ' '
    requires forall i :: lead + |r| <= i < |s| ==> s[i] == ' '
    ensures TrimSpace(s) == r
  {
    assert s[lead..lead + |r|] == r;
    assert s[lead] == r[0];
    assert LeadingSpace(s) == lead;
    assert s[lead + |r| - 1] == r[|r| - 1];
  }
}
