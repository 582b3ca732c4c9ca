/** Python string operations used by the recipe, on `seq<char>`. */
module Text {

  /** `s.startswith(prefix)`. */
  predicate StartsWith(s: string, prefix: string) {
    |prefix| <= |s| && s[..|prefix|] == prefix
  }

  /** `s.endswith(suffix)`. */
  predicate EndsWith(s: string, suffix: string) {
    |suffix| <= |s| && s[|s| - |suffix|..] == suffix
  }

  lemma EndsWithTrans(s: string, t: string, u: string)
    requires EndsWith(s, t) && EndsWith(t, u)
    ensures EndsWith(s, u)
  {
    assert s[|s| - |u|..] == t[|t| - |u|..];
  }

  lemma ConcatPieces(a: string, b: string, c: string)
    ensures StartsWith(a + (b + c), a)
    ensures EndsWith(a + (b + c), c)
    ensures (a + (b + c))[|a|..|a| + |b|] == b
  {
    assert (a + (b + c))[..|a|] == a;
    assert (a + (b + c))[|a| + |b|..] == c;
  }

  /** `sep.join(parts)` for a one-character separator. */
  function Join(parts: seq<string>, sep: char): (r: string)
    ensures |r| >= |parts| - 1
  {
    if |parts| == 0 then ""
    else if |parts| == 1 then parts[0]
    else parts[0] + [sep] + Join(parts[1..], sep)
  }

  /** A join starts with the first part, ends with the last, and holds the
      separator as soon as there are two parts. */
  lemma {:induction false} JoinEnds(parts: seq<string>, sep: char)
    requires |parts| > 0
    ensures StartsWith(Join(parts, sep), parts[0])
    ensures EndsWith(Join(parts, sep), parts[|parts| - 1])
    ensures |parts| > 1 ==> sep in Join(parts, sep)
    decreases |parts|
  {
    if |parts| > 1 {
      var last := parts[|parts| - 1];
      var tail := Join(parts[1..], sep);
      assert EndsWith(tail, last) by {
        JoinEnds(parts[1..], sep);
        assert parts[1..][|parts[1..]| - 1] == last;
      }
      assert Join(parts, sep) == parts[0] + ([sep] + tail);
      JoinEndsStep(parts[0], sep, tail, last);
    } else {
      assert Join(parts, sep) == parts[0];
    }
  }

  lemma JoinEndsStep(first: string, sep: char, tail: string, last: string)
    requires EndsWith(tail, last)
    ensures StartsWith(first + ([sep] + tail), first)
    ensures EndsWith(first + ([sep] + tail), last)
    ensures sep in first + ([sep] + tail)
  {
    var r := first + ([sep] + tail);
    ConcatPieces(first, [sep], tail);
    assert r[|first|] == sep;
    EndsWithTrans(r, tail, last);
  }

  lemma JoinCons(p: string, rest: seq<string>, sep: char)
    ensures Join([p] + rest, sep) == if |rest| == 0 then p else p + [sep] + Join(rest, sep)
  {
    assert ([p] + rest)[1..] == rest;
  }

  /** The part of `s` before the first `c` (all of `s` when there is none). */
  function TakeUntil(s: string, c: char): (r: string)
    ensures |r| <= |s|
  {
    if |s| == 0 || s[0] == c then "" else [s[0]] + TakeUntil(s[1..], c)
  }

  /** `TakeUntil` stops at the first `c` or at the end of `s`. */
  lemma {:induction false} TakeUntilSpec(s: string, c: char)
    ensures TakeUntil(s, c) == s[..|TakeUntil(s, c)|]
    ensures c !in TakeUntil(s, c)
    ensures |TakeUntil(s, c)| < |s| ==> s[|TakeUntil(s, c)|] == c
    decreases |s|
  {
    if |s| > 0 && s[0] != c {
      TakeUntilSpec(s[1..], c);
    }
  }

  lemma {:induction false} TakeUntilStops(x: string, c: char, y: string)
    requires c !in x
    ensures TakeUntil(x + [c] + y, c) == x
    decreases |x|
  {
    if |x| > 0 {
      assert (x + [c] + y)[1..] == x[1..] + [c] + y;
      TakeUntilStops(x[1..], c, y);
    }
  }

  /** Cutting `s` at its first `c`. */
  lemma TakeUntilParts(s: string, c: char)
    requires |TakeUntil(s, c)| < |s|
    ensures s == TakeUntil(s, c) + [c] + s[|TakeUntil(s, c)| + 1..]
  {
    var f := TakeUntil(s, c);
    TakeUntilSpec(s, c);
    assert s == s[..|f|] + [s[|f|]] + s[|f| + 1..];
  }

  lemma {:induction false} TakeUntilAbsent(s: string, c: char)
    requires c !in s
    ensures TakeUntil(s, c) == s
    decreases |s|
  {
    if |s| > 0 {
      TakeUntilAbsent(s[1..], c);
    }
  }

  /** `s.split(sep)` for a one-character separator: the text up to each
      separator, in order, and the text after the last one; the empty
      string has the one field `""`. */
  function Split(s: string, sep: char): (fields: seq<string>)
    ensures |fields| >= 1
    decreases |s|
  {
    var first := TakeUntil(s, sep);
    if |first| == |s| then [s] else [first] + Split(s[|first| + 1..], sep)
  }

  /** The fields hold no separator, and joining them gives the text back. */
  lemma {:induction false} JoinSplit(s: string, sep: char)
    ensures forall i :: 0 <= i < |Split(s, sep)| ==> sep !in Split(s, sep)[i]
    ensures Join(Split(s, sep), sep) == s
    decreases |s|
  {
    var first := TakeUntil(s, sep);
    TakeUntilSpec(s, sep);
    if |first| == |s| {
      assert first == s;
    } else {
      var rest := s[|first| + 1..];
      JoinSplit(rest, sep);
      TakeUntilParts(s, sep);
      JoinCons(first, Split(rest, sep), sep);
    }
  }

  lemma SplitNoSep(p: string, sep: char)
    requires sep !in p
    ensures Split(p, sep) == [p]
  {
    TakeUntilAbsent(p, sep);
  }

  lemma SplitAfterField(p: string, rest: string, sep: char)
    requires sep !in p
    ensures Split(p + [sep] + rest, sep) == [p] + Split(rest, sep)
  {
    TakeUntilStops(p, sep, rest);
    assert (p + [sep] + rest)[|p| + 1..] == rest;
  }

  /** Splitting distributes over a separator: the fields of `a + sep + b`
      are the fields of `a` followed by the fields of `b`. */
  lemma {:induction false} SplitAround(a: string, b: string, sep: char)
    ensures Split(a + [sep] + b, sep) == Split(a, sep) + Split(b, sep)
    decreases |a|
  {
    if sep !in a {
      SplitNoSep(a, sep);
      SplitAfterField(a, b, sep);
    } else {
      var first := TakeUntil(a, sep);
      TakeUntilSpec(a, sep);
      assert |first| < |a| by {
        assert a[..|a|] == a;
      }
      var rest := a[|first| + 1..];
      TakeUntilParts(a, sep);
      SplitAround(rest, b, sep);
      SplitAroundStep(first, rest, b, sep);
    }
  }

  lemma SplitAroundStep(first: string, rest: string, b: string, sep: char)
    requires sep !in first
    requires Split(rest + [sep] + b, sep) == Split(rest, sep) + Split(b, sep)
    ensures Split(first + [sep] + rest + [sep] + b, sep) == Split(first + [sep] + rest, sep) + Split(b, sep)
  {
    var x := rest + [sep] + b;
    var left := first + [sep] + rest;
    var fr, fb := Split(rest, sep), Split(b, sep);
    assert Split(left + [sep] + b, sep) == [first] + Split(x, sep) by {
      assert left + [sep] + b == first + [sep] + x;
      SplitAfterField(first, x, sep);
    }
    assert Split(left, sep) == [first] + fr by {
      SplitAfterField(first, rest, sep);
    }
    assert [first] + (fr + fb) == ([first] + fr) + fb;
  }

  /** `Split` undoes `Join` whenever no part contains the separator. */
  lemma {:induction false} SplitJoin(parts: seq<string>, sep: char)
    requires |parts| >= 1
    requires forall i :: 0 <= i < |parts| ==> sep !in parts[i]
    ensures Split(Join(parts, sep), sep) == parts
    decreases |parts|
  {
    if |parts| == 1 {
      SplitNoSep(parts[0], sep);
    } else {
      SplitJoin(parts[1..], sep);
      SplitAfterField(parts[0], Join(parts[1..], sep), sep);
      assert [parts[0]] + parts[1..] == parts;
    }
  }

  predicate IsUpper(c: char) {
    'A' <= c <= 'Z'
  }

  /** `c.lower()` restricted to ASCII letters. */
  function LowerChar(c: char): char {
    if IsUpper(c) then (c as int + 32) as char else c
  }

  /** `s.lower()` restricted to ASCII letters. */
  function Lower(s: string): (r: string)
    ensures |r| == |s|
    ensures forall i :: 0 <= i < |s| ==> r[i] == LowerChar(s[i])
  {
    if |s| == 0 then "" else [LowerChar(s[0])] + Lower(s[1..])
  }

  /** `s.replace(from, to)` for single characters. */
  function ReplaceChar(s: string, from: char, to: char): (r: string)
    ensures |r| == |s|
    ensures forall i :: 0 <= i < |s| ==> r[i] == (if s[i] == from then to else s[i])
  {
    if |s| == 0 then "" else [if s[0] == from then to else s[0]] + ReplaceChar(s[1..], from, to)
  }
}
