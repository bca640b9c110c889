/** The parts of Go's `strings` package that the plugin relies on, over
    strings as sequences of characters. */
module Text {

  /** unicode.IsSpace: the Latin-1 spaces and the White_Space code points
      above Latin-1. strings.TrimSpace trims exactly these. */
  predicate IsSpace(c: char)
  {
    c == '\t' || c == '\n' || c == '\U{B}' || c == '\U{C}' || c == '\r' || c == ' '
    || c == '\U{85}' || c == '\U{A0}' || c == '\U{1680}'
    || ('\U{2000}' <= c <= '\U{200A}')
    || c == '\U{2028}' || c == '\U{2029}' || c == '\U{202F}' || c == '\U{205F}' || c == '\U{3000}'
  }

  predicate AllSpace(s: string)
  {
    forall k :: 0 <= k < |s| ==> IsSpace(s[k])
  }

  lemma AllSpaceTail(s: string)
    requires s != [] && IsSpace(s[0])
    ensures AllSpace(s) <==> AllSpace(s[1..])
  {
    if AllSpace(s[1..]) {
      forall k | 0 < k < |s| ensures IsSpace(s[k]) { assert s[k] == s[1..][k - 1]; }
    }
  }

  lemma AllSpaceInit(s: string)
    requires s != [] && IsSpace(s[|s| - 1])
    ensures AllSpace(s) <==> AllSpace(s[..|s| - 1])
  {
    if AllSpace(s[..|s| - 1]) {
      forall k | 0 <= k < |s| - 1 ensures IsSpace(s[k]) { assert s[k] == s[..|s| - 1][k]; }
    }
  }

  /** strings.TrimSpace: drops white space from both ends. TrimSpaceEnds
      and TrimSpaceShape say what the result is. */
  function TrimSpace(s: string): (r: string)
    ensures |r| <= |s|
    decreases |s|
  {
    if s == [] then s
    else if IsSpace(s[0]) then TrimSpace(s[1..])
    else if IsSpace(s[|s| - 1]) then TrimSpace(s[..|s| - 1])
    else s
  }

  /** Neither end of the trimmed text is a space, and it is empty exactly
      when `s` is all space. */
  lemma {:induction false} TrimSpaceEnds(s: string)
    ensures var r := TrimSpace(s); r == [] || (!IsSpace(r[0]) && !IsSpace(r[|r| - 1]))
    ensures TrimSpace(s) == [] <==> AllSpace(s)
    decreases |s|
  {
    if s == [] {
    } else if IsSpace(s[0]) {
      TrimSpaceEnds(s[1..]);
      AllSpaceTail(s);
    } else if IsSpace(s[|s| - 1]) {
      TrimSpaceEnds(s[..|s| - 1]);
      AllSpaceInit(s);
    }
  }

  /** The trimmed text is the part of `s` between a leading and a trailing
      run of white space. */
  lemma {:induction false} TrimSpaceShape(s: string) returns (i: nat)
    ensures i + |TrimSpace(s)| <= |s|
    ensures s[i..i + |TrimSpace(s)|] == TrimSpace(s)
    ensures AllSpace(s[..i]) && AllSpace(s[i + |TrimSpace(s)|..])
    decreases |s|, 1
  {
    if s == [] {
      i := 0;
    } else if IsSpace(s[0]) {
      i := ShapeLeading(s);
    } else if IsSpace(s[|s| - 1]) {
      i := ShapeTrailing(s);
    } else {
      i := 0;
      assert s[..0] == [] && s[|s|..] == [];
    }
  }

  lemma {:induction false} ShapeLeading(s: string) returns (i: nat)
    requires s != [] && IsSpace(s[0])
    ensures i + |TrimSpace(s)| <= |s|
    ensures s[i..i + |TrimSpace(s)|] == TrimSpace(s)
    ensures AllSpace(s[..i]) && AllSpace(s[i + |TrimSpace(s)|..])
    decreases |s|, 0
  {
    var j := TrimSpaceShape(s[1..]);
    ShapeAfterLeadingSpace(s, j, TrimSpace(s[1..]));
    i := j + 1;
  }

  lemma {:induction false} ShapeTrailing(s: string) returns (i: nat)
    requires s != [] && !IsSpace(s[0]) && IsSpace(s[|s| - 1])
    ensures i + |TrimSpace(s)| <= |s|
    ensures s[i..i + |TrimSpace(s)|] == TrimSpace(s)
    ensures AllSpace(s[..i]) && AllSpace(s[i + |TrimSpace(s)|..])
    decreases |s|, 0
  {
    i := TrimSpaceShape(s[..|s| - 1]);
    ShapeBeforeTrailingSpace(s, i, TrimSpace(s[..|s| - 1]));
  }

  lemma ShapeAfterLeadingSpace(s: string, j: nat, r: string)
    requires s != [] && IsSpace(s[0])
    requires j + |r| <= |s| - 1 && s[1..][j..j + |r|] == r
    requires AllSpace(s[1..][..j]) && AllSpace(s[1..][j + |r|..])
    ensures s[j + 1..j + 1 + |r|] == r
    ensures AllSpace(s[..j + 1]) && AllSpace(s[j + 1 + |r|..])
  {
    assert s[j + 1..j + 1 + |r|] == s[1..][j..j + |r|];
    assert s[j + 1 + |r|..] == s[1..][j + |r|..];
    var pre := s[..j + 1];
    forall k | 0 < k < |pre| ensures IsSpace(pre[k]) {
      assert pre[k] == s[1..][..j][k - 1];
    }
  }

  lemma ShapeBeforeTrailingSpace(s: string, i: nat, r: string)
    requires s != [] && IsSpace(s[|s| - 1])
    requires i + |r| <= |s| - 1 && s[..|s| - 1][i..i + |r|] == r
    requires AllSpace(s[..|s| - 1][..i]) && AllSpace(s[..|s| - 1][i + |r|..])
    ensures s[i..i + |r|] == r
    ensures AllSpace(s[..i]) && AllSpace(s[i + |r|..])
  {
    assert s[i..i + |r|] == s[..|s| - 1][i..i + |r|];
    assert s[..i] == s[..|s| - 1][..i];
    var tail := s[i + |r|..];
    forall k | 0 <= k < |tail| ensures IsSpace(tail[k]) {
      if k < |tail| - 1 {
        assert tail[k] == s[..|s| - 1][i + |r|..][k];
      }
    }
  }

  lemma TrimSpaceIdempotent(s: string)
    ensures TrimSpace(TrimSpace(s)) == TrimSpace(s)
  {
  }

  predicate HasPrefix(s: string, p: string)
  {
    |p| <= |s| && s[..|p|] == p
  }

  /** strings.TrimPrefix: removes `p` once from the front of `s` when it is there. */
  function TrimPrefix(s: string, p: string): (r: string)
    ensures |r| <= |s|
  {
    if HasPrefix(s, p) then s[|p|..] else s
  }

  /** With the prefix in front of it, the result gives back `s`; without
      it, `s` is returned unchanged. */
  lemma TrimPrefixRestores(s: string, p: string)
    ensures HasPrefix(s, p) ==> s == p + TrimPrefix(s, p)
    ensures !HasPrefix(s, p) ==> TrimPrefix(s, p) == s
  {
    if HasPrefix(s, p) {
      assert s == s[..|p|] + s[|p|..];
    }
  }

  /** strings.Contains: `t` occurs somewhere in `s` (the empty string occurs everywhere). */
  predicate Contains(s: string, t: string)
    decreases |s|
  {
    HasPrefix(s, t) || (s != [] && Contains(s[1..], t))
  }

  /** strings.ReplaceAll(s, t, ""): a left-to-right scan that deletes every
      occurrence of `t` it meets and resumes after it; the occurrences removed
      never overlap. An empty `t` leaves `s` unchanged. */
  function RemoveAll(s: string, t: string): (r: string)
    ensures |r| <= |s|
    decreases |s|
  {
    if t == [] || s == [] then s
    else if HasPrefix(s, t) then RemoveAll(s[|t|..], t)
    else [s[0]] + RemoveAll(s[1..], t)
  }

  /** Removing a non-empty token changes the text exactly when the token occurs in it. */
  lemma {:induction false} RemoveAllChangesIffContains(s: string, t: string)
    requires t != []
    ensures RemoveAll(s, t) == s <==> !Contains(s, t)
    decreases |s|
  {
    if s == [] {
    } else if HasPrefix(s, t) {
      assert |RemoveAll(s[|t|..], t)| <= |s| - |t| < |s|;
    } else {
      RemoveAllChangesIffContains(s[1..], t);
      assert s == [s[0]] + s[1..];
    }
  }

  /** strings.Split with a one-character separator: the pieces between
      separators, in order; there is always at least one piece. The plugin
      splits on ',' and the scanner on '\n', and the proofs about those
      splits are much cheaper with a single character than with SplitOn
      below, so both forms are kept. */
  function Split(s: string, sep: char): (parts: seq<string>)
    ensures |parts| >= 1
    decreases |s|
  {
    if s == [] then [[]]
    else
      var rest := Split(s[1..], sep);
      if s[0] == sep then [[]] + rest
      else [[s[0]] + rest[0]] + rest[1..]
  }

  /** No piece contains the separator. */
  lemma {:induction false} SplitPiecesHaveNoSeparator(s: string, sep: char)
    ensures forall k :: 0 <= k < |Split(s, sep)| ==> sep !in Split(s, sep)[k]
    decreases |s|
  {
    if s != [] {
      SplitPiecesHaveNoSeparator(s[1..], sep);
    }
  }

  /** The last piece is empty exactly when the text is empty or ends with
      the separator. */
  lemma {:induction false} SplitLastPiece(s: string, sep: char)
    ensures var parts := Split(s, sep); parts[|parts| - 1] == [] <==> s == [] || s[|s| - 1] == sep
    decreases |s|
  {
    if s != [] {
      var rest := Split(s[1..], sep);
      var parts := Split(s, sep);
      SplitLastPiece(s[1..], sep);
      if s[0] != sep && |rest| == 1 {
        SinglePieceHasNoSeparator(s[1..], sep);
        assert parts[|parts| - 1] == [s[0]] + rest[0];
      } else {
        assert parts[|parts| - 1] == rest[|rest| - 1];
      }
      if |s| > 1 {
        assert s[|s| - 1] == s[1..][|s| - 2];
      }
    }
  }

  lemma SinglePieceHasNoSeparator(s: string, sep: char)
    requires |Split(s, sep)| == 1
    ensures sep !in s
  {
    JoinSplit(s, sep);
    SplitPiecesHaveNoSeparator(s, sep);
  }

  /** A text without the separator is one piece. */
  lemma {:induction false} SplitWithoutSeparator(s: string, sep: char)
    requires sep !in s
    ensures Split(s, sep) == [s]
    decreases |s|
  {
    if s != [] {
      SplitWithoutSeparator(s[1..], sep);
      assert [s[0]] + s[1..] == s;
    }
  }

  /** A separator after a separator-free text closes the first piece. */
  lemma {:induction false} SplitAfterPiece(a: string, sep: char, rest: string)
    requires sep !in a
    ensures Split(a + [sep] + rest, sep) == [a] + Split(rest, sep)
    decreases |a|
  {
    var s := a + [sep] + rest;
    if a == [] {
      assert s[1..] == rest;
    } else {
      SplitAfterPiece(a[1..], sep, rest);
      assert s[1..] == a[1..] + [sep] + rest;
      assert [a[0]] + a[1..] == a;
    }
  }

  /** Split undoes Join when no piece holds the separator. */
  lemma {:induction false} SplitJoin(parts: seq<string>, sep: char)
    requires parts != []
    requires forall k :: 0 <= k < |parts| ==> sep !in parts[k]
    ensures Split(Join(parts, sep), sep) == parts
    decreases |parts|
  {
    if |parts| == 1 {
      SplitWithoutSeparator(parts[0], sep);
    } else {
      SplitJoin(parts[1..], sep);
      SplitAfterPiece(parts[0], sep, Join(parts[1..], sep));
      assert [parts[0]] + parts[1..] == parts;
    }
  }

  /** strings.Join with a one-character separator. */
  function Join(parts: seq<string>, sep: char): string
    decreases |parts|
  {
    if parts == [] then []
    else if |parts| == 1 then parts[0]
    else parts[0] + [sep] + Join(parts[1..], sep)
  }

  /** Split loses nothing: joining the pieces back gives the original text. */
  lemma {:induction false} JoinSplit(s: string, sep: char)
    ensures Join(Split(s, sep), sep) == s
    decreases |s|
  {
    if s != [] {
      var rest := Split(s[1..], sep);
      JoinSplit(s[1..], sep);
      if s[0] == sep {
        assert Split(s, sep)[1..] == rest;
      } else {
        var parts := Split(s, sep);
        assert parts[1..] == rest[1..];
        if |rest| > 1 {
          assert Join(rest, sep) == rest[0] + [sep] + Join(rest[1..], sep);
        }
      }
    }
  }

  /** The concatenation of a sequence of strings, in order. */
  function Concat(ss: seq<string>): string
  {
    if ss == [] then [] else Concat(ss[..|ss| - 1]) + ss[|ss| - 1]
  }

  lemma {:induction false} ConcatAppend(a: seq<string>, b: seq<string>)
    ensures Concat(a + b) == Concat(a) + Concat(b)
    decreases |b|
  {
    if b != [] {
      assert (a + b)[..|a + b| - 1] == a + b[..|b| - 1];
      ConcatAppend(a, b[..|b| - 1]);
    } else {
      assert a + b == a;
    }
  }

  lemma ConcatCons(x: string, xs: seq<string>)
    ensures Concat([x] + xs) == x + Concat(xs)
  {
    ConcatAppend([x], xs);
    assert [x][..0] == [];
  }

  /** strings.Split with a separator string: the pieces between the leftmost
      non-overlapping occurrences of `t`, in order. It is the reference for
      RemoveAll, which keeps exactly these pieces. */
  function SplitOn(s: string, t: string): (parts: seq<string>)
    requires t != []
    ensures |parts| >= 1
    decreases |s|
  {
    if s == [] then [[]]
    else if HasPrefix(s, t) then [[]] + SplitOn(s[|t|..], t)
    else
      var rest := SplitOn(s[1..], t);
      [[s[0]] + rest[0]] + rest[1..]
  }

  /** strings.Join with a separator string. */
  function JoinOn(parts: seq<string>, t: string): string
    decreases |parts|
  {
    if parts == [] then []
    else if |parts| == 1 then parts[0]
    else parts[0] + t + JoinOn(parts[1..], t)
  }

  /** SplitOn loses nothing: putting the token back between the pieces
      gives the original text. */
  lemma {:induction false} JoinOnSplitOn(s: string, t: string)
    requires t != []
    ensures JoinOn(SplitOn(s, t), t) == s
    decreases |s|
  {
    if s != [] {
      if HasPrefix(s, t) {
        var rest := SplitOn(s[|t|..], t);
        JoinOnSplitOn(s[|t|..], t);
        assert SplitOn(s, t) == [[]] + rest;
        JoinOnEmptyFirst(rest, t);
        assert s == t + s[|t|..];
      } else {
        var rest := SplitOn(s[1..], t);
        JoinOnSplitOn(s[1..], t);
        assert SplitOn(s, t) == [[s[0]] + rest[0]] + rest[1..];
        JoinOnLongerFirst(s[0], rest, t);
        assert s == [s[0]] + s[1..];
      }
    }
  }

  lemma JoinOnEmptyFirst(rest: seq<string>, t: string)
    requires rest != []
    ensures JoinOn([[]] + rest, t) == t + JoinOn(rest, t)
  {
    assert ([[]] + rest)[1..] == rest;
  }

  lemma JoinOnLongerFirst(c: char, rest: seq<string>, t: string)
    requires rest != []
    ensures JoinOn([[c] + rest[0]] + rest[1..], t) == [c] + JoinOn(rest, t)
  {
    var parts := [[c] + rest[0]] + rest[1..];
    if |rest| > 1 {
      assert parts[1..] == rest[1..];
    }
  }

  lemma {:induction false} SplitOnFirstIsPrefix(s: string, t: string)
    requires t != []
    ensures HasPrefix(s, SplitOn(s, t)[0])
    decreases |s|
  {
    if s != [] && !HasPrefix(s, t) {
      var rest := SplitOn(s[1..], t);
      SplitOnFirstIsPrefix(s[1..], t);
      PrefixCons(s, rest[0]);
    }
  }

  lemma PrefixCons(s: string, p: string)
    requires s != [] && HasPrefix(s[1..], p)
    ensures HasPrefix(s, [s[0]] + p)
  {
    assert s[..|p| + 1] == [s[0]] + s[1..][..|p|];
  }

  /** No piece of SplitOn holds the token. */
  lemma {:induction false} SplitOnPiecesLackToken(s: string, t: string)
    requires t != []
    ensures forall k :: 0 <= k < |SplitOn(s, t)| ==> !Contains(SplitOn(s, t)[k], t)
    decreases |s|
  {
    if s != [] {
      if HasPrefix(s, t) {
        SplitOnPiecesLackToken(s[|t|..], t);
        assert SplitOn(s, t)[1..] == SplitOn(s[|t|..], t);
      } else {
        var rest := SplitOn(s[1..], t);
        SplitOnPiecesLackToken(s[1..], t);
        SplitOnFirstIsPrefix(s[1..], t);
        var first := [s[0]] + rest[0];
        assert HasPrefix(s, first) by {
          assert s[..|first|] == [s[0]] + s[1..][..|rest[0]|];
        }
        assert first[1..] == rest[0];
        assert SplitOn(s, t)[1..] == rest[1..];
        forall k | 0 < k < |SplitOn(s, t)| ensures !Contains(SplitOn(s, t)[k], t) {
          assert SplitOn(s, t)[k] == rest[k];
        }
      }
    }
  }

  /** Deleting every occurrence of a token keeps exactly the pieces between
      the occurrences, in order. */
  lemma {:induction false} RemoveAllIsConcat(s: string, t: string)
    requires t != []
    ensures RemoveAll(s, t) == Concat(SplitOn(s, t))
    decreases |s|
  {
    if s == [] {
      ConcatCons([], []);
    } else if HasPrefix(s, t) {
      var rest := SplitOn(s[|t|..], t);
      RemoveAllIsConcat(s[|t|..], t);
      assert SplitOn(s, t) == [[]] + rest;
      ConcatCons([], rest);
    } else {
      var rest := SplitOn(s[1..], t);
      RemoveAllIsConcat(s[1..], t);
      assert SplitOn(s, t) == [[s[0]] + rest[0]] + rest[1..];
      ConcatLongerFirst(s[0], rest[0], rest[1..]);
      assert [rest[0]] + rest[1..] == rest;
    }
  }

  lemma ConcatLongerFirst(c: char, head: string, tail: seq<string>)
    ensures Concat([[c] + head] + tail) == [c] + Concat([head] + tail)
  {
    ConcatCons(head, tail);
    ConcatCons([c] + head, tail);
    var x := Concat(tail);
    assert ([c] + head) + x == [c] + (head + x);
  }
}
