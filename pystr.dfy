/**
 * The Python 2 string operations the codecs rely on: `str.split()` with no
 * separator, `str.split(sep)` with a one-character separator, and `sep.join`.
 */
module PyStr {

  /** The characters `str.split()` treats as whitespace in a byte string. */
  predicate IsSpace(c: char)
  {
    c == ' ' || c == '\t' || c == '\n' || c == '\r' || c == '\U{0B}' || c == '\U{0C}'
  }

  predicate NoSpace(s: string)
  {
    forall i | 0 <= i < |s| :: !IsSpace(s[i])
  }

  /** The length of the run of non-whitespace characters `s` starts with. */
  function WordLength(s: string): (n: nat)
    ensures n <= |s|
    ensures NoSpace(s[..n])
    ensures n < |s| ==> IsSpace(s[n])
  {
    if s == [] || IsSpace(s[0]) then 0 else 1 + WordLength(s[1..])
  }

  /**
   * `s.split()`: the maximal runs of non-whitespace characters, in order;
   * leading, trailing and repeated whitespace yield no empty field.
   */
  function Fields(s: string): (r: seq<string>)
    ensures forall i | 0 <= i < |r| :: r[i] != [] && NoSpace(r[i])
    decreases |s|
  {
    if s == [] then []
    else if IsSpace(s[0]) then Fields(s[1..])
    else
      var n := WordLength(s);
      [s[..n]] + Fields(s[n..])
  }

  /** The characters of `s` that are not whitespace, in order. */
  function NonSpace(s: string): string
  {
    if s == [] then [] else (if IsSpace(s[0]) then [] else [s[0]]) + NonSpace(s[1..])
  }

  /** The places, after the first character, where whitespace is followed by a non-whitespace character. */
  function Boundaries(s: string): nat
  {
    if |s| < 2 then 0
    else (if IsSpace(s[0]) && !IsSpace(s[1]) then 1 else 0) + Boundaries(s[1..])
  }

  /** The number of words in `s`: the positions where a run of non-whitespace characters begins. */
  function WordStarts(s: string): nat
  {
    if s == [] then 0 else (if IsSpace(s[0]) then 0 else 1) + Boundaries(s)
  }

  /** `sep.join(parts)`. */
  function JoinWith(sep: string, parts: seq<string>): string
  {
    if parts == [] then []
    else if |parts| == 1 then parts[0]
    else parts[0] + sep + JoinWith(sep, parts[1..])
  }

  /** `s.split(c)`: the pieces between occurrences of `c`, empty ones included. */
  function SplitOn(s: string, c: char): (r: seq<string>)
    ensures |r| >= 1
    ensures forall i | 0 <= i < |r| :: c !in r[i]
  {
    if s == [] then [[]]
    else
      var rest := SplitOn(s[1..], c);
      if s[0] == c then [[]] + rest else [[s[0]] + rest[0]] + rest[1..]
  }

  lemma {:induction false} WordLengthAppend(w: string, t: string)
    requires NoSpace(w)
    ensures WordLength(w + t) == |w| + WordLength(t)
  {
    if w == [] {
      assert w + t == t;
    } else {
      assert (w + t)[0] == w[0] && !IsSpace(w[0]);
      assert (w + t)[1..] == w[1..] + t;
      WordLengthAppend(w[1..], t);
    }
  }

  /** Splitting a space-joined sequence of words gives the words back. */
  lemma {:induction false} FieldsJoinSpace(parts: seq<string>)
    requires forall i | 0 <= i < |parts| :: parts[i] != [] && NoSpace(parts[i])
    ensures Fields(JoinWith(" ", parts)) == parts
  {
    if parts == [] {
    } else if |parts| == 1 {
      var w := parts[0];
      WordLengthAppend(w, []);
      assert w + [] == w;
      assert w[..|w|] == w;
      assert w[|w|..] == [];
    } else {
      var w, rest := parts[0], JoinWith(" ", parts[1..]);
      var s := w + " " + rest;
      assert s == w + (" " + rest);
      WordLengthAppend(w, " " + rest);
      assert s[..|w|] == w;
      assert s[|w|..] == " " + rest;
      assert (" " + rest)[1..] == rest;
      FieldsJoinSpace(parts[1..]);
      assert parts == [w] + parts[1..];
    }
  }

  lemma {:induction false} NonSpaceAppend(a: string, b: string)
    ensures NonSpace(a + b) == NonSpace(a) + NonSpace(b)
  {
    if a != [] {
      assert (a + b)[0] == a[0];
      assert (a + b)[1..] == a[1..] + b;
      NonSpaceAppend(a[1..], b);
    } else {
      assert a + b == b;
    }
  }

  lemma {:induction false} NonSpaceOfWord(w: string)
    requires NoSpace(w)
    ensures NonSpace(w) == w
  {
    if w != [] {
      NonSpaceOfWord(w[1..]);
    }
  }

  /** The fields of `s`, run together, are exactly its non-whitespace characters. */
  lemma {:induction false} FieldsConcat(s: string)
    ensures JoinWith("", Fields(s)) == NonSpace(s)
    decreases |s|
  {
    if s == [] {
    } else if IsSpace(s[0]) {
      FieldsConcat(s[1..]);
    } else {
      var n := WordLength(s);
      var w, rest := s[..n], Fields(s[n..]);
      FieldsConcat(s[n..]);
      assert s == w + s[n..];
      NonSpaceAppend(w, s[n..]);
      NonSpaceOfWord(w);
      assert ([w] + rest)[1..] == rest;
      if rest == [] {
        assert JoinWith("", [w] + rest) == w;
      }
    }
  }

  /** A word at the start of `s` accounts for one word start; the rest of them come after it. */
  lemma {:induction false} WordStartsWord(s: string)
    requires s != [] && !IsSpace(s[0])
    ensures WordStarts(s) == 1 + WordStarts(s[WordLength(s)..])
  {
    if |s| >= 2 && !IsSpace(s[1]) {
      WordStartsWord(s[1..]);
      assert s[WordLength(s)..] == s[1..][WordLength(s[1..])..];
    }
  }

  /** `s.split()` has one field per word start of `s`. */
  lemma {:induction false} FieldsCount(s: string)
    ensures |Fields(s)| == WordStarts(s)
    decreases |s|
  {
    if s == [] {
    } else if IsSpace(s[0]) {
      FieldsCount(s[1..]);
    } else {
      FieldsCount(s[WordLength(s)..]);
      WordStartsWord(s);
    }
  }

  /** Joining the pieces of a split restores the string. */
  lemma {:induction false} JoinSplit(s: string, c: char)
    ensures JoinWith([c], SplitOn(s, c)) == s
  {
    if s != [] {
      var rest := SplitOn(s[1..], c);
      JoinSplit(s[1..], c);
      if s[0] == c {
        assert ([[]] + rest)[1..] == rest;
      } else {
        var r := [[s[0]] + rest[0]] + rest[1..];
        assert r[1..] == rest[1..];
        if |rest| > 1 {
          assert JoinWith([c], rest) == rest[0] + [c] + JoinWith([c], rest[1..]);
        }
      }
    }
  }

  lemma {:induction false} SplitPrefix(w: string, t: string, c: char)
    requires c !in w
    ensures SplitOn(w + t, c) == [w + SplitOn(t, c)[0]] + SplitOn(t, c)[1..]
  {
    var tail := SplitOn(t, c);
    if w == [] {
      assert w + t == t && w + tail[0] == tail[0];
      assert [tail[0]] + tail[1..] == tail;
    } else {
      assert (w + t)[0] == w[0] != c;
      assert (w + t)[1..] == w[1..] + t;
      SplitPrefix(w[1..], t, c);
      var rest := SplitOn(w[1..] + t, c);
      assert rest[0] == w[1..] + tail[0] && rest[1..] == tail[1..];
      assert [w[0]] + (w[1..] + tail[0]) == w + tail[0];
    }
  }

  /** Splitting a joined sequence of pieces free of the separator gives the pieces back. */
  lemma {:induction false} SplitJoin(parts: seq<string>, c: char)
    requires parts != []
    requires forall i | 0 <= i < |parts| :: c !in parts[i]
    ensures SplitOn(JoinWith([c], parts), c) == parts
  {
    var w := parts[0];
    if |parts| == 1 {
      SplitPrefix(w, [], c);
      assert w + [] == w;
    } else {
      var rest := JoinWith([c], parts[1..]);
      assert JoinWith([c], parts) == w + ([c] + rest);
      SplitPrefix(w, [c] + rest, c);
      assert ([c] + rest)[0] == c && ([c] + rest)[1..] == rest;
      var x := SplitOn([c] + rest, c);
      assert x == [[]] + SplitOn(rest, c);
      SplitJoin(parts[1..], c);
      assert x[0] == [] && x[1..] == parts[1..];
      assert w + x[0] == w;
      assert parts == [w] + parts[1..];
    }
  }
}
