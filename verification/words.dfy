/** Python's `str.split()` (no separator: split on runs of whitespace, drop
    empty pieces) and `" ".join(words)`, the two text operations the chunker,
    the truncator and the summary concatenation are built from. */
module Words {

  /** `str.isspace()` for one character: the ASCII controls TAB..CR and
      FS..US, SPACE, NEL, NBSP and the Unicode space separators. */
  predicate IsSpace(c: char) {
    || ('\U{9}' <= c <= '\U{D}')
    || ('\U{1C}' <= c <= '\U{20}')
    || c == '\U{85}' || c == '\U{A0}' || c == '\U{1680}'
    || ('\U{2000}' <= c <= '\U{200A}')
    || c == '\U{2028}' || c == '\U{2029}' || c == '\U{202F}' || c == '\U{205F}' || c == '\U{3000}'
  }

  /** A piece `split()` can produce: non-empty, no whitespace inside. */
  predicate IsWord(w: string) {
    |w| > 0 && forall i :: 0 <= i < |w| ==> !IsSpace(w[i])
  }

  predicate AllWords(ws: seq<string>) {
    forall i :: 0 <= i < |ws| ==> IsWord(ws[i])
  }

  /** Length of the leading run of non-whitespace characters. */
  function WordLength(s: string): (k: nat)
    ensures k <= |s|
    ensures forall i :: 0 <= i < k ==> !IsSpace(s[i])
    ensures k < |s| ==> IsSpace(s[k])
  {
    if |s| == 0 || IsSpace(s[0]) then 0 else 1 + WordLength(s[1..])
  }

  /** `s.split()`: the maximal whitespace-free runs of `s`, left to right. */
  function Split(s: string): (ws: seq<string>)
    ensures AllWords(ws)
    decreases |s|
  {
    if |s| == 0 then []
    else if IsSpace(s[0]) then Split(s[1..])
    else
      var k := WordLength(s);
      [s[..k]] + Split(s[k..])
  }

  /** The non-whitespace characters of `s`, in order. */
  function NonSpace(s: string): string
  {
    if |s| == 0 then [] else (if IsSpace(s[0]) then [] else [s[0]]) + NonSpace(s[1..])
  }

  /** The words laid end to end. */
  function Concat(ws: seq<string>): string
  {
    if |ws| == 0 then [] else ws[0] + Concat(ws[1..])
  }

  /** The first word is the first of the words laid end to end. */
  lemma ConcatOffWord(s: string)
    requires |s| > 0 && !IsSpace(s[0])
    ensures var k := WordLength(s);
            Concat(Split(s)) == s[..k] + Concat(Split(s[k..]))
  {
    var k := WordLength(s);
    var w, rest := s[..k], s[k..];
    assert Split(s) == [w] + Split(rest);
    assert ([w] + Split(rest))[1..] == Split(rest);
  }

  /** The first word is the first run of non-whitespace characters. */
  lemma {:induction false} NonSpaceOffWord(s: string)
    ensures var k := WordLength(s);
            NonSpace(s) == s[..k] + NonSpace(s[k..])
    decreases |s|
  {
    if |s| > 0 && !IsSpace(s[0]) {
      var k := WordLength(s);
      var t := s[1..];
      NonSpaceOffWord(t);
      assert t[..k - 1] == s[1..k];
      assert t[k - 1..] == s[k..];
      assert [s[0]] + s[1..k] == s[..k];
    }
  }

  /** The first word splits off the front of both sides. */
  lemma SplitOffWord(s: string)
    requires |s| > 0 && !IsSpace(s[0])
    ensures var k := WordLength(s);
            && Concat(Split(s)) == s[..k] + Concat(Split(s[k..]))
            && NonSpace(s) == s[..k] + NonSpace(s[k..])
  {
    ConcatOffWord(s);
    NonSpaceOffWord(s);
  }

  /** Splitting loses only whitespace: the words, laid end to end, are the
      text's non-whitespace characters in order. */
  lemma {:induction false} SplitKeepsCharacters(s: string)
    ensures Concat(Split(s)) == NonSpace(s)
    decreases |s|
  {
    if |s| == 0 {
    } else if IsSpace(s[0]) {
      assert Split(s) == Split(s[1..]) && NonSpace(s) == NonSpace(s[1..]);
      SplitKeepsCharacters(s[1..]);
    } else {
      var k := WordLength(s);
      assert 0 < k;
      SplitKeepsCharacters(s[k..]);
      SplitOffWord(s);
    }
  }

  /** A leading run ending before the end of `a`, or ended by whitespace
      that follows `a`, is unaffected by what follows. */
  lemma {:induction false} WordLengthPrefix(a: string, t: string)
    requires WordLength(a) < |a| || (|t| > 0 && IsSpace(t[0]))
    ensures WordLength(a + t) == WordLength(a)
    decreases |a|
  {
    if |a| > 0 {
      assert (a + t)[0] == a[0];
      if !IsSpace(a[0]) {
        assert (a + t)[1..] == a[1..] + t;
        WordLengthPrefix(a[1..], t);
      }
    }
  }

  /** A whitespace character separates: the words on either side of it are
      split independently. Together with `Split(w) == [w]` for a word `w` (an
      instance of `SplitJoin`) this determines `Split` on every text. */
  lemma {:induction false} SplitAtSpace(a: string, c: char, b: string)
    requires IsSpace(c)
    ensures Split(a + [c] + b) == Split(a) + Split(b)
    decreases |a|, 1
  {
    var s := a + [c] + b;
    if |a| == 0 {
      assert s[1..] == b;
    } else if IsSpace(a[0]) {
      assert s[0] == a[0];
      assert s[1..] == a[1..] + [c] + b;
      SplitAtSpace(a[1..], c, b);
    } else {
      SplitAtSpaceAfterWord(a, c, b);
    }
  }

  lemma SlicesOfAppend(a: string, t: string, k: nat)
    requires k <= |a|
    ensures (a + t)[..k] == a[..k]
    ensures (a + t)[k..] == a[k..] + t
  {
  }

  /** The case of `SplitAtSpace` where `a` starts with a word: that word is
      the first word on both sides. */
  lemma {:induction false} SplitAtSpaceAfterWord(a: string, c: char, b: string)
    requires IsSpace(c) && |a| > 0 && !IsSpace(a[0])
    ensures Split(a + [c] + b) == Split(a) + Split(b)
    decreases |a|, 0
  {
    var k := WordLength(a);
    var t := [c] + b;
    WordLengthPrefix(a, t);
    SlicesOfAppend(a, t, k);
    assert (a + t)[0] == a[0];
    assert a + [c] + b == a + t;
    if k < |a| {
      assert a[k..] + t == a[k..] + [c] + b;
      SplitAtSpace(a[k..], c, b);
    } else {
      assert a[k..] == [];
      assert t[1..] == b;
    }
  }

  /** `" ".join(ws)`. */
  function Join(ws: seq<string>): string
  {
    if |ws| == 0 then ""
    else if |ws| == 1 then ws[0]
    else ws[0] + " " + Join(ws[1..])
  }

  /** A normalised text: one that `" ".join(s.split())` leaves unchanged. */
  predicate Normalised(s: string) {
    Join(Split(s)) == s
  }

  lemma {:induction false} WordLengthOfWordThenSpace(w: string, t: string)
    requires IsWord(w)
    requires |t| == 0 || IsSpace(t[0])
    ensures WordLength(w + t) == |w|
    decreases |w|
  {
    assert (w + t)[0] == w[0];
    assert (w + t)[1..] == w[1..] + t;
    if |w| > 1 {
      WordLengthOfWordThenSpace(w[1..], t);
    }
  }

  /** Splitting a joined list of words gives the list back. */
  lemma {:induction false} SplitJoin(ws: seq<string>)
    requires AllWords(ws)
    ensures Split(Join(ws)) == ws
    decreases |ws|
  {
    if |ws| == 0 {
    } else if |ws| == 1 {
      var w := ws[0];
      WordLengthOfWordThenSpace(w, "");
      assert w + "" == w;
      assert w[..|w|] == w && w[|w|..] == "";
    } else {
      var w, rest := ws[0], Join(ws[1..]);
      var s := w + " " + rest;
      assert Join(ws) == s;
      WordLengthOfWordThenSpace(w, " " + rest);
      assert s == w + (" " + rest);
      assert s[..|w|] == w;
      assert s[|w|..] == " " + rest;
      assert (" " + rest)[1..] == rest;
      SplitJoin(ws[1..]);
      assert Split(s) == [w] + Split(s[|w|..]);
      assert Split(" " + rest) == Split(rest);
      assert ws == [w] + ws[1..];
    }
  }

  /** Every text obtained by joining words is normalised. */
  lemma JoinIsNormalised(ws: seq<string>)
    requires AllWords(ws)
    ensures Normalised(Join(ws))
  {
    SplitJoin(ws);
  }

  /** Joining two non-empty lists puts exactly one space between them. */
  lemma {:induction false} JoinAppend(a: seq<string>, b: seq<string>)
    requires |a| > 0 && |b| > 0
    ensures Join(a + b) == Join(a) + " " + Join(b)
    decreases |a|
  {
    if |a| == 1 {
      assert (a + b)[1..] == b;
    } else {
      assert (a + b)[1..] == a[1..] + b;
      JoinAppend(a[1..], b);
    }
  }

  /** A joined text starts with the first word and ends with the last. */
  lemma {:induction false} JoinEnds(ws: seq<string>)
    requires |ws| > 0
    ensures ws[0] <= Join(ws)
    ensures |ws[|ws| - 1]| <= |Join(ws)|
    ensures Join(ws)[|Join(ws)| - |ws[|ws| - 1]|..] == ws[|ws| - 1]
    decreases |ws|
  {
    if |ws| > 1 {
      JoinEnds(ws[1..]);
      var head, tail := ws[0] + " ", Join(ws[1..]);
      assert Join(ws) == head + tail;
      assert ws[0] <= Join(ws) by {
        assert Join(ws)[..|ws[0]|] == ws[0];
      }
      var last := ws[|ws| - 1];
      assert last == ws[1..][|ws[1..]| - 1];
      assert (head + tail)[|head + tail| - |last|..] == tail[|tail| - |last|..];
    }
  }

  function TotalLength(ws: seq<string>): nat
  {
    if |ws| == 0 then 0 else |ws[0]| + TotalLength(ws[1..])
  }

  /** The joined text is the words' characters plus one separator between
      each adjacent pair. */
  lemma {:induction false} JoinLength(ws: seq<string>)
    requires |ws| > 0
    ensures |Join(ws)| == TotalLength(ws) + |ws| - 1
    decreases |ws|
  {
    if |ws| > 1 {
      JoinLength(ws[1..]);
    }
  }
}
