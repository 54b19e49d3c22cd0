/**
 * The string operations of the ECMAScript library that main.js relies on:
 * `trim`, `split` with a one-character separator, `split(/\r?\n/)`,
 * `join` and `replaceAll` of one character.
 */
module Text {

  /** The characters `String.prototype.trim` removes: WhiteSpace and LineTerminator of ECMA-262. */
  predicate IsSpace(c: char) {
    || c == '\t' || c == '\n' || c == '\U{000B}' || c == '\U{000C}' || c == '\r' || c == ' '
    || c == '\U{00A0}' || c == '\U{1680}' || ('\U{2000}' <= c <= '\U{200A}')
    || c == '\U{2028}' || c == '\U{2029}' || c == '\U{202F}' || c == '\U{205F}'
    || c == '\U{3000}' || c == '\U{FEFF}'
  }

  /** Number of occurrences of `c` in `s`. */
  function Count(s: string, c: char): nat {
    if s == [] then 0 else (if s[0] == c then 1 else 0) + Count(s[1..], c)
  }

  lemma {:induction false} CountZero(s: string, c: char)
    ensures Count(s, c) == 0 <==> c !in s
  {
    if s != [] {
      CountZero(s[1..], c);
      assert s == [s[0]] + s[1..];
    }
  }

  /** Concatenation regroups freely. */
  lemma ConcatAssoc<T>(x: seq<T>, y: seq<T>, z: seq<T>)
    ensures x + (y + z) == (x + y) + z
  {
  }

  // ---------------------------------------------------------------- trim

  /** `s` without its leading white space. */
  function TrimStart(s: string): string {
    if s != [] && IsSpace(s[0]) then TrimStart(s[1..]) else s
  }

  /** TrimStart keeps the longest suffix of `s` that does not start with a space. */
  lemma {:induction false} TrimStartSpec(s: string)
    ensures var r := TrimStart(s);
      && |r| <= |s| && (forall i :: 0 <= i < |r| ==> r[i] == s[|s| - |r| + i])
      && (r == [] || !IsSpace(r[0]))
      && (forall i :: 0 <= i < |s| - |r| ==> IsSpace(s[i]))
  {
    if s != [] && IsSpace(s[0]) {
      var t := s[1..];
      var r := TrimStart(t);
      TrimStartSpec(t);
      assert TrimStart(s) == r;
      forall i | 0 <= i < |r|
        ensures r[i] == s[|s| - |r| + i]
      {
        assert r[i] == t[|t| - |r| + i];
      }
      forall i | 0 < i < |s| - |r|
        ensures IsSpace(s[i])
      {
        assert s[i] == t[i - 1];
      }
    }
  }

  /** `s` without its trailing white space. */
  function TrimEnd(s: string): string {
    if s != [] && IsSpace(s[|s| - 1]) then TrimEnd(s[..|s| - 1]) else s
  }

  /** TrimEnd keeps the longest prefix of `s` that does not end with a space. */
  lemma {:induction false} TrimEndSpec(s: string)
    ensures var r := TrimEnd(s);
      && |r| <= |s| && (forall i :: 0 <= i < |r| ==> r[i] == s[i])
      && (r == [] || !IsSpace(r[|r| - 1]))
      && (forall i :: |r| <= i < |s| ==> IsSpace(s[i]))
  {
    if s != [] && IsSpace(s[|s| - 1]) {
      var t := s[..|s| - 1];
      var r := TrimEnd(t);
      TrimEndSpec(t);
      assert TrimEnd(s) == r;
      forall i | 0 <= i < |r|
        ensures r[i] == s[i]
      {
        assert r[i] == t[i];
      }
      forall i | |r| <= i < |s| - 1
        ensures IsSpace(s[i])
      {
        assert s[i] == t[i];
      }
    }
  }

  /** `r` is the slice of `s` starting at `i`, and everything of `s` around it is white space. */
  ghost predicate SpaceAround(s: string, r: string, i: int) {
    && 0 <= i && i + |r| <= |s| && r == s[i..i + |r|]
    && (forall k :: 0 <= k < i ==> IsSpace(s[k]))
    && (forall k :: i + |r| <= k < |s| ==> IsSpace(s[k]))
  }

  /** Neither end of `r` is white space. */
  predicate Trimmed(r: string) {
    r == [] || (!IsSpace(r[0]) && !IsSpace(r[|r| - 1]))
  }

  /** `String.prototype.trim`. */
  function Trim(s: string): (r: string)
    ensures Trimmed(r)
  {
    TrimStartSpec(s);
    TrimEndSpec(TrimStart(s));
    TrimEnd(TrimStart(s))
  }

  /** What Trim removes is white space, on both sides of a slice of `s`. */
  lemma TrimSlice(s: string)
    ensures exists i :: SpaceAround(s, Trim(s), i)
  {
    var t := TrimStart(s);
    TrimStartSpec(s);
    var i := |s| - |t|;
    assert t == s[i..];
    var r := TrimEnd(t);
    TrimEndSpec(t);
    assert r == t[..|r|] == s[i..i + |r|];
    forall k | i + |r| <= k < |s|
      ensures IsSpace(s[k])
    {
      assert s[k] == t[k - i];
    }
    assert Trim(s) == r;
    assert SpaceAround(s, r, i);
  }

  /** Trim is characterised by its contract: the only slice of `s` with trimmed ends and white space around it. */
  lemma TrimUnique(s: string, r: string, i: int)
    requires Trimmed(r) && SpaceAround(s, r, i)
    ensures r == Trim(s)
  {
    var t := Trim(s);
    TrimSlice(s);
    var j :| SpaceAround(s, t, j);
    // A non-space character of s is inside both slices.
    assert forall k :: 0 <= k < |s| && !IsSpace(s[k]) ==> i <= k < i + |r| && j <= k < j + |t|;
    assert |r| > 0 ==> s[i] == r[0] && s[i + |r| - 1] == r[|r| - 1];
    assert |t| > 0 ==> s[j] == t[0] && s[j + |t| - 1] == t[|t| - 1];
    assert |r| > 0 <==> |t| > 0;
    assert |r| > 0 ==> i == j && i + |r| == j + |t|;
  }

  /** The strings Trim leaves alone are exactly those with no white space at either end. */
  lemma TrimFixed(s: string)
    ensures Trim(s) == s <==> Trimmed(s)
  {
    if Trimmed(s) {
      assert s[0..0 + |s|] == s;
      TrimUnique(s, s, 0);
    }
  }

  /** Trimming twice trims nothing more. */
  lemma TrimIdempotent(s: string)
    ensures Trim(Trim(s)) == Trim(s)
  {
    TrimFixed(Trim(s));
  }

  /** A string trims to nothing exactly when it is all white space. */
  lemma TrimBlank(s: string)
    ensures Trim(s) == [] <==> forall k :: 0 <= k < |s| ==> IsSpace(s[k])
  {
    var t := Trim(s);
    TrimSlice(s);
    var j :| SpaceAround(s, t, j);
    assert |t| > 0 ==> s[j] == t[0] && !IsSpace(s[j]);
  }

  // ---------------------------------------------------------------- split and join

  /** `s.split(d)` for a one-character separator: always at least one piece, none containing `d`. */
  function Split(s: string, d: char): (r: seq<string>)
    ensures |r| == Count(s, d) + 1
    ensures forall i :: 0 <= i < |r| ==> d !in r[i]
  {
    if s == [] then [[]]
    else
      var rest := Split(s[1..], d);
      if s[0] == d then [[]] + rest else [[s[0]] + rest[0]] + rest[1..]
  }

  /** `parts.join(sep)`. */
  function Join(parts: seq<string>, sep: string): string {
    if |parts| == 0 then []
    else if |parts| == 1 then parts[0]
    else parts[0] + sep + Join(parts[1..], sep)
  }

  /** Joining the pieces of a split with the separator gives back the text. */
  lemma {:induction false} SplitJoin(s: string, d: char)
    ensures Join(Split(s, d), [d]) == s
  {
    if s != [] {
      var rest := Split(s[1..], d);
      SplitJoin(s[1..], d);
      if s[0] == d {
        assert ([[]] + rest)[1..] == rest;
      } else {
        var r := [[s[0]] + rest[0]] + rest[1..];
        assert r[1..] == rest[1..];
        if |rest| > 1 {
          assert Join(rest, [d]) == rest[0] + [d] + Join(rest[1..], [d]);
        }
      }
    }
  }

  /** Splitting a text whose first `|a|` characters hold no separator extends the first piece. */
  lemma {:induction false} SplitPrefix(a: string, t: string, d: char)
    requires d !in a
    ensures Split(a + t, d) == [a + Split(t, d)[0]] + Split(t, d)[1..]
  {
    if a != [] {
      SplitPrefix(a[1..], t, d);
      assert (a + t)[1..] == a[1..] + t;
      assert [a[0]] + (a[1..] + Split(t, d)[0]) == a + Split(t, d)[0];
    } else {
      assert a + t == t && a + Split(t, d)[0] == Split(t, d)[0];
    }
  }

  /** Splitting a join of separator-free pieces gives back the pieces. */
  lemma {:induction false} JoinSplit(parts: seq<string>, d: char)
    requires |parts| >= 1
    requires forall i :: 0 <= i < |parts| ==> d !in parts[i]
    ensures Split(Join(parts, [d]), d) == parts
  {
    var p := parts[0];
    if |parts| == 1 {
      SplitPrefix(p, [], d);
      assert p + [] == p;
    } else {
      var j := Join(parts[1..], [d]);
      JoinSplit(parts[1..], d);
      assert Join(parts, [d]) == p + ([d] + j);
      SplitPrefix(p, [d] + j, d);
      assert ([d] + j)[1..] == j;
      assert Split([d] + j, d) == [[]] + parts[1..];
      assert p + [] == p;
    }
  }

  // ---------------------------------------------------------------- lines

  /** `s.split(/\r?\n/)`: a line break is a line feed, together with the carriage return right before it. */
  function Lines(s: string): (r: seq<string>)
    ensures |r| == Count(s, '\n') + 1
    ensures forall i :: 0 <= i < |r| ==> '\n' !in r[i]
  {
    if s == [] then [[]]
    else if s[0] == '\n' then [[]] + Lines(s[1..])
    else if |s| >= 2 && s[0] == '\r' && s[1] == '\n' then
      assert s[1..][1..] == s[2..];
      [[]] + Lines(s[2..])
    else
      var rest := Lines(s[1..]);
      [[s[0]] + rest[0]] + rest[1..]
  }

  /** In a text without carriage returns the lines are the pieces between line feeds. */
  lemma {:induction false} LinesWithoutCR(s: string)
    requires '\r' !in s
    ensures Lines(s) == Split(s, '\n')
  {
    if s != [] {
      assert '\r' !in s[1..];
      LinesWithoutCR(s[1..]);
    }
  }

  /** `s` with every CR LF pair replaced by a lone LF. */
  function DropCR(s: string): string {
    if s == [] then []
    else if |s| >= 2 && s[0] == '\r' && s[1] == '\n' then "\n" + DropCR(s[2..])
    else [s[0]] + DropCR(s[1..])
  }

  /** The lines, joined again with line feeds, are the text with its CR LF breaks made LF. */
  lemma {:induction false} LinesJoin(s: string)
    ensures Join(Lines(s), "\n") == DropCR(s)
  {
    if s == [] {
    } else if s[0] == '\n' {
      var rest := Lines(s[1..]);
      LinesJoin(s[1..]);
      var r := [[]] + rest;
      assert Lines(s) == r && r[0] == [] && r[1..] == rest && |r| > 1;
      assert [] + "\n" == [s[0]];
      assert DropCR(s) == [s[0]] + DropCR(s[1..]);
    } else if |s| >= 2 && s[0] == '\r' && s[1] == '\n' {
      var rest := Lines(s[2..]);
      LinesJoin(s[2..]);
      var r := [[]] + rest;
      assert Lines(s) == r && r[0] == [] && r[1..] == rest && |r| > 1;
      assert [] + "\n" == "\n";
      assert DropCR(s) == "\n" + DropCR(s[2..]);
    } else {
      var rest := Lines(s[1..]);
      LinesJoin(s[1..]);
      var r := [[s[0]] + rest[0]] + rest[1..];
      assert Lines(s) == r && r[0] == [s[0]] + rest[0] && r[1..] == rest[1..];
      assert DropCR(s) == [s[0]] + DropCR(s[1..]);
      if |rest| > 1 {
        var j := Join(rest[1..], "\n");
        assert Join(rest, "\n") == rest[0] + "\n" + j;
        assert Join(r, "\n") == [s[0]] + rest[0] + "\n" + j;
        ConcatAssoc([s[0]], rest[0], "\n");
        ConcatAssoc([s[0]], rest[0] + "\n", j);
      }
    }
  }

  // ---------------------------------------------------------------- replaceAll

  /** `s.replaceAll(from, to)` for one-character patterns: every `from` becomes `to`, nothing else moves. */
  function Replace(s: string, from: char, to: char): (r: string)
    ensures |r| == |s|
    ensures forall i :: 0 <= i < |s| ==> r[i] == if s[i] == from then to else s[i]
  {
    if s == [] then [] else [if s[0] == from then to else s[0]] + Replace(s[1..], from, to)
  }
}
