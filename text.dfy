/** The few Python string operations the code generator wrapper is built from:
    `sep.join(parts)`, `s.split(c)` for a one-character separator, the
    argument-less `s.split()` that cuts on runs of whitespace, and `s.lower()`
    restricted to ASCII letters. Strings are sequences of characters. */
module Text {

  type Str = seq<char>

  // ---------------------------------------------------------------------------
  // sep.join(parts)
  // ---------------------------------------------------------------------------

  /** `sep.join(parts)`: the parts in order, with `sep` between neighbours. */
  function Join(parts: seq<Str>, sep: Str): (joined: Str)
    decreases |parts|
  {
    if |parts| == 0 then []
    else if |parts| == 1 then parts[0]
    else parts[0] + sep + Join(parts[1..], sep)
  }

  /** Adding one part at the end adds one separator and that part. */
  lemma {:induction false} JoinSnoc(parts: seq<Str>, last: Str, sep: Str)
    requires parts != []
    ensures Join(parts + [last], sep) == Join(parts, sep) + sep + last
    decreases |parts|
  {
    if |parts| == 1 {
      assert parts + [last] == [parts[0], last];
    } else {
      assert (parts + [last])[1..] == parts[1..] + [last];
      JoinSnoc(parts[1..], last, sep);
    }
  }

  // ---------------------------------------------------------------------------
  // s.split(c)
  // ---------------------------------------------------------------------------

  /** `s.split(sep)` for a one-character separator: every occurrence of `sep`
      cuts the string, and empty pieces are kept, so there is always at least
      one piece. */
  function Split(s: Str, sep: char): (parts: seq<Str>)
    ensures |parts| >= 1
    ensures forall i :: 0 <= i < |parts| ==> sep !in parts[i]
    decreases |s|
  {
    if |s| == 0 then [[]]
    else
      var rest := Split(s[1..], sep);
      if s[0] == sep then [[]] + rest
      else [[s[0]] + rest[0]] + rest[1..]
  }

  /** Splitting loses nothing: the pieces hold no separator and joining them
      with the separator gives back the string. */
  lemma {:induction false} SplitJoin(s: Str, sep: char)
    ensures Join(Split(s, sep), [sep]) == s
    decreases |s|
  {
    if |s| > 0 {
      var rest := Split(s[1..], sep);
      SplitJoin(s[1..], sep);
      if s[0] == sep {
        assert ([[]] + rest)[1..] == rest;
        assert s == [sep] + s[1..];
      } else {
        var parts := [[s[0]] + rest[0]] + rest[1..];
        assert parts[1..] == rest[1..];
        if |rest| == 1 {
          assert s == [s[0]] + s[1..];
        } else {
          assert Join(rest, [sep]) == rest[0] + [sep] + Join(rest[1..], [sep]);
          assert s == [s[0]] + s[1..];
        }
      }
    }
  }

  /** Every occurrence of the separator cuts: there is one piece more than
      there are separators. */
  lemma {:induction false} SplitCount(s: Str, sep: char)
    ensures |Split(s, sep)| == multiset(s)[sep] + 1
    decreases |s|
  {
    if |s| > 0 {
      SplitCount(s[1..], sep);
      assert s == [s[0]] + s[1..];
    }
  }

  /** A string without the separator is a single piece. */
  lemma {:induction false} SplitWithoutSeparator(s: Str, sep: char)
    requires sep !in s
    ensures Split(s, sep) == [s]
    decreases |s|
  {
    if |s| > 0 {
      assert sep !in s[1..] by {
        forall i | 0 <= i < |s| - 1 ensures s[1..][i] != sep { assert s[1..][i] == s[i + 1]; }
      }
      SplitWithoutSeparator(s[1..], sep);
      assert s == [s[0]] + s[1..];
    }
  }

  /** `s.split(sep)[0]` is the text before the first separator: a prefix of
      `s` without the separator, followed in `s` by a separator or by nothing. */
  lemma {:induction false} SplitFirst(s: Str, sep: char)
    ensures var first := Split(s, sep)[0];
      |first| <= |s| && first == s[..|first|] && sep !in first &&
      (|first| < |s| ==> s[|first|] == sep)
    decreases |s|
  {
    if |s| > 0 && s[0] != sep {
      SplitFirst(s[1..], sep);
      var first := Split(s, sep)[0];
      var tail := Split(s[1..], sep)[0];
      assert first == [s[0]] + tail;
      assert s == [s[0]] + s[1..];
    }
  }

  /** `s.split(sep)[-1]` is the text after the last separator: a suffix of `s`
      without the separator, preceded in `s` by a separator or by nothing. */
  lemma {:induction false} SplitLast(s: Str, sep: char)
    ensures var parts := Split(s, sep); var last := parts[|parts| - 1];
      |last| <= |s| && last == s[|s| - |last|..] && sep !in last &&
      (|last| < |s| ==> s[|s| - |last| - 1] == sep)
    decreases |s|
  {
    if |s| > 0 {
      var tail := s[1..];
      var rest := Split(tail, sep);
      var lastOfRest := rest[|rest| - 1];
      SplitLast(tail, sep);
      var m := |lastOfRest|;
      assert tail[|tail| - m..] == s[|s| - m..];
      if m < |tail| {
        assert tail[|tail| - m - 1] == s[|s| - m - 1];
      }
      var parts := Split(s, sep);
      if s[0] == sep {
        assert parts == [[]] + rest;
        assert parts[|parts| - 1] == lastOfRest;
      } else if |rest| == 1 {
        SplitJoin(tail, sep);
        assert lastOfRest == tail;
        assert parts == [[s[0]] + tail];
        assert s == [s[0]] + tail;
      } else {
        assert parts == [[s[0]] + rest[0]] + rest[1..];
        assert parts[|parts| - 1] == lastOfRest;
        if sep !in tail {
          SplitWithoutSeparator(tail, sep);
        }
        assert m < |tail|;
      }
    }
  }

  // ---------------------------------------------------------------------------
  // s.split() with no argument
  // ---------------------------------------------------------------------------

  /** The characters Python's `str.split()` treats as whitespace. */
  predicate IsSpace(c: char)
  {
    var n := c as int;
    (9 <= n <= 13) || (28 <= n <= 32) || n == 0x85 || n == 0xA0 || n == 0x1680 ||
    (0x2000 <= n <= 0x200A) || n == 0x2028 || n == 0x2029 || n == 0x202F ||
    n == 0x205F || n == 0x3000
  }

  predicate NoSpace(s: Str)
  {
    forall c :: c in s ==> !IsSpace(c)
  }

  /** The longest prefix of `s` that holds no whitespace. */
  function Word(s: Str): (w: Str)
    ensures |w| <= |s| && w == s[..|w|] && NoSpace(w)
    ensures |w| < |s| ==> IsSpace(s[|w|])
    decreases |s|
  {
    if s == [] || IsSpace(s[0]) then [] else [s[0]] + Word(s[1..])
  }

  /** `s.split()`: the maximal runs of non-whitespace characters, in order;
      leading, trailing and repeated whitespace produce no empty pieces. */
  function Tokens(s: Str): (ts: seq<Str>)
    ensures forall i :: 0 <= i < |ts| ==> ts[i] != [] && NoSpace(ts[i])
    decreases |s|
  {
    if s == [] then []
    else if IsSpace(s[0]) then Tokens(s[1..])
    else
      var w := Word(s);
      [w] + Tokens(s[|w|..])
  }

  /** The words of a list that are not empty, in order. */
  function NonEmpty(ws: seq<Str>): (r: seq<Str>)
  {
    if ws == [] then []
    else if ws[0] == [] then NonEmpty(ws[1..])
    else [ws[0]] + NonEmpty(ws[1..])
  }

  /** A whitespace-free word stops at the next whitespace character. */
  lemma {:induction false} WordOf(w: Str, t: Str)
    requires NoSpace(w)
    requires t == [] || IsSpace(t[0])
    ensures Word(w + t) == w
    decreases |w|
  {
    if w == [] {
      assert w + t == t;
    } else {
      assert (w + t)[0] == w[0];
      assert (w + t)[1..] == w[1..] + t;
      WordOf(w[1..], t);
      assert w == [w[0]] + w[1..];
    }
  }

  /** Splitting on whitespace after joining whitespace-free words with single
      spaces gives back the words, except that empty words vanish. */
  lemma {:induction false} TokensOfJoin(ws: seq<Str>)
    requires forall i :: 0 <= i < |ws| ==> NoSpace(ws[i])
    ensures Tokens(Join(ws, " ")) == NonEmpty(ws)
    decreases |ws|
  {
    if |ws| == 1 {
      var w := ws[0];
      assert ws == [w] && ws[1..] == [];
      if w != [] {
        WordOf(w, []);
        assert w + [] == w;
        assert w[|w|..] == [];
      }
    } else if |ws| > 1 {
      var w, j := ws[0], Join(ws[1..], " ");
      var s := w + " " + j;
      assert Join(ws, " ") == s;
      TokensOfJoin(ws[1..]);
      if w == [] {
        assert s == [' '] + j;
        assert s[1..] == j;
        assert Tokens(s) == Tokens(j);
      } else {
        WordOf(w, " " + j);
        assert s == w + (" " + j);
        assert s[0] == w[0] && !IsSpace(s[0]);
        assert s[|w|..] == " " + j;
        assert (" " + j)[1..] == j;
        assert Tokens(s) == [w] + Tokens(" " + j);
        assert Tokens(" " + j) == Tokens(j);
      }
    }
  }

  /** When every word is non-empty, the round trip is exact. */
  lemma {:induction false} NonEmptyOfNonEmpty(ws: seq<Str>)
    requires forall i :: 0 <= i < |ws| ==> ws[i] != []
    ensures NonEmpty(ws) == ws
    decreases |ws|
  {
    if ws != [] {
      NonEmptyOfNonEmpty(ws[1..]);
    }
  }

  /** Dropping empty words distributes over concatenation. */
  lemma {:induction false} NonEmptyAppend(a: seq<Str>, b: seq<Str>)
    ensures NonEmpty(a + b) == NonEmpty(a) + NonEmpty(b)
    decreases |a|
  {
    if a == [] {
      assert a + b == b;
    } else {
      assert (a + b)[1..] == a[1..] + b;
      NonEmptyAppend(a[1..], b);
    }
  }

  // ---------------------------------------------------------------------------
  // s.lower()
  // ---------------------------------------------------------------------------

  predicate IsUpper(c: char)
  {
    'A' <= c <= 'Z'
  }

  /** Lower-casing of one character, ASCII letters only. */
  function LowerChar(c: char): (d: char)
  {
    if IsUpper(c) then (c as int + 32) as char else c
  }

  /** `s.lower()` on ASCII text: every upper-case letter replaced by its
      lower-case partner, everything else kept. */
  function Lower(s: Str): (r: Str)
    ensures |r| == |s|
    ensures forall i :: 0 <= i < |s| ==> !IsUpper(r[i])
    ensures forall i :: 0 <= i < |s| && !IsUpper(s[i]) ==> r[i] == s[i]
  {
    seq(|s|, i requires 0 <= i < |s| => LowerChar(s[i]))
  }

  /** Lower-casing turns each upper-case letter into the letter at the same
      place of the lower-case alphabet, and is idempotent. */
  lemma LowerFacts(s: Str)
    ensures forall i :: 0 <= i < |s| && IsUpper(s[i]) ==>
      Lower(s)[i] == "abcdefghijklmnopqrstuvwxyz"[s[i] as int - 'A' as int]
    ensures Lower(Lower(s)) == Lower(s)
  {
    forall i | 0 <= i < |s| && IsUpper(s[i])
      ensures Lower(s)[i] == "abcdefghijklmnopqrstuvwxyz"[s[i] as int - 'A' as int]
    {
      LowerLetter(s[i]);
    }
  }

  lemma LowerLetter(c: char)
    requires IsUpper(c)
    ensures LowerChar(c) == "abcdefghijklmnopqrstuvwxyz"[c as int - 'A' as int]
  {
  }

  /** Text with no upper-case letter is its own lower-case form. */
  lemma LowerOfLower(s: Str)
    requires forall i :: 0 <= i < |s| ==> !IsUpper(s[i])
    ensures Lower(s) == s
  {
  }
}
