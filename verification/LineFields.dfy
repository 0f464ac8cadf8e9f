/** The words of a line: what is between its white space. */
module LineFields {
  import opened Wrappers
  import opened WhiteSpace

  /** The words of `s`, the first of them begun with `word`. */
  function Words(s: Bytes, word: Bytes): seq<Bytes> {
    var done := if |word| == 0 then [] else [word];
    if |s| == 0 then done
    else if SpaceWidth(s) > 0 then done + Words(s[SpaceWidth(s)..], [])
    else Words(s[1..], word + [s[0]])
  }

  function Fields(s: Bytes): seq<Bytes> {
    Words(s, [])
  }

  // ---- what the fields are ----

  /** A word: not empty, without white space. */
  ghost predicate Solid(w: Bytes) {
    |w| > 0 && forall i | 0 <= i < |w| :: SpaceWidth(w[i..]) == 0
  }

  /** Words with blanks before, between and after them. */
  function Weave(words: seq<Bytes>, blanks: seq<Bytes>): Bytes
    requires |blanks| == |words| + 1
  {
    if |words| == 0 then blanks[0] else blanks[0] + (words[0] + Weave(words[1..], blanks[1..]))
  }

  /** The line is these words, apart from each other, and white space. */
  ghost predicate Layout(s: Bytes, words: seq<Bytes>, blanks: seq<Bytes>) {
    Apart(words, blanks) && s == Weave(words, blanks)
  }

  ghost predicate Apart(words: seq<Bytes>, blanks: seq<Bytes>) {
    && |blanks| == |words| + 1
    && (forall i | 0 <= i < |words| :: Solid(words[i]))
    && (forall i | 0 <= i < |blanks| :: Blanks(blanks[i]))
    && (forall i | 0 < i < |words| :: |blanks[i]| > 0)
  }

  /** White space never completes a character begun before it. */
  lemma {:induction false} NoSpaceMade(s: Bytes, rest: Bytes)
    requires |s| > 0 && SpaceWidth(s) == 0 && (|rest| > 0 ==> SpaceWidth(rest) > 0)
    ensures SpaceWidth(s + rest) == 0
  {
    if |s| == 1 && |rest| > 0 {
      assert (s + rest)[1] == rest[0];
    } else if |s| == 2 && |rest| > 0 {
      assert (s + rest)[2] == rest[0];
    }
  }

  lemma {:induction false} WordScan(w: Bytes, rest: Bytes, before: Bytes)
    requires (forall i | 0 <= i < |w| :: SpaceWidth(w[i..]) == 0) && (|rest| > 0 ==> SpaceWidth(rest) > 0)
    ensures Words(w + rest, before) == Words(rest, before + w)
  {
    if |w| == 0 {
      assert w + rest == rest && before + w == before;
    } else {
      assert w[0..] == w;
      NoSpaceMade(w, rest);
      assert (w + rest)[1..] == w[1..] + rest;
      forall i | 0 <= i < |w[1..]|
        ensures SpaceWidth(w[1..][i..]) == 0
      {
        assert w[1..][i..] == w[i + 1..];
      }
      WordScan(w[1..], rest, before + [w[0]]);
      assert before + [w[0]] + w[1..] == before + w;
    }
  }

  lemma {:induction false} BlanksSkipped(b: Bytes, s: Bytes, before: Bytes)
    requires Blanks(b) && |b| > 0
    ensures SpaceWidth(b + s) > 0
    ensures Words(b + s, before) == (if |before| == 0 then [] else [before]) + Words(s, [])
  {
    var w := SpaceWidth(b);
    SpaceStays(b, s);
    assert (b + s)[w..] == b[w..] + s;
    if |b[w..]| == 0 {
      assert b[w..] + s == s;
    } else {
      BlanksSkipped(b[w..], s, []);
    }
  }

  lemma {:induction false} BlanksOrNone(b: Bytes, s: Bytes)
    requires Blanks(b)
    ensures Words(b + s, []) == Words(s, [])
  {
    if |b| == 0 {
      assert b + s == s;
    } else {
      BlanksSkipped(b, s, []);
    }
  }

  lemma {:induction false} WeaveBlank(words: seq<Bytes>, blanks: seq<Bytes>)
    requires Apart(words, blanks) && |blanks[0]| > 0
    ensures SpaceWidth(Weave(words, blanks)) > 0
  {
    if |words| > 0 {
      SpaceStays(blanks[0], words[0] + Weave(words[1..], blanks[1..]));
    }
  }

  lemma {:induction false} ApartTail(words: seq<Bytes>, blanks: seq<Bytes>)
    requires Apart(words, blanks) && |words| > 0
    ensures Apart(words[1..], blanks[1..])
    ensures |words| > 1 ==> |blanks[1]| > 0
  {}

  /** The fields of a line laid out with these words are these words. */
  lemma {:induction false} LayoutFields(words: seq<Bytes>, blanks: seq<Bytes>)
    requires Apart(words, blanks)
    ensures Fields(Weave(words, blanks)) == words
  {
    if |words| == 0 {
      BlanksOrNone(blanks[0], []);
      assert blanks[0] + [] == blanks[0];
    } else {
      var rest := Weave(words[1..], blanks[1..]);
      ApartTail(words, blanks);
      LayoutFields(words[1..], blanks[1..]);
      BlanksOrNone(blanks[0], words[0] + rest);
      if |words| > 1 || |blanks[1]| > 0 {
        WeaveBlank(words[1..], blanks[1..]);
      }
      WordScan(words[0], rest, []);
      assert [] + words[0] == words[0];
      WordEnds(words[0], words[1..], blanks[1..]);
    }
  }

  lemma {:induction false} BlankEndsWord(b: Bytes, rest: Bytes, word: Bytes)
    requires Blanks(b) && |b| > 0 && |word| > 0
    ensures Words(b + rest, word) == [word] + Words(b + rest, [])
  {
    BlanksSkipped(b, rest, word);
    BlanksSkipped(b, rest, []);
  }

  lemma {:induction false} WordEnds(word: Bytes, words: seq<Bytes>, blanks: seq<Bytes>)
    requires Apart(words, blanks) && |word| > 0 && (|words| > 0 ==> |blanks[0]| > 0)
    ensures Words(Weave(words, blanks), word) == [word] + Words(Weave(words, blanks), [])
  {
    var b := blanks[0];
    if |words| > 0 {
      BlankEndsWord(b, words[0] + Weave(words[1..], blanks[1..]), word);
    } else if |b| > 0 {
      BlankEndsWord(b, [], word);
      assert b + [] == b;
    }
  }

  lemma {:induction false} LayoutIsFields(s: Bytes, words: seq<Bytes>, blanks: seq<Bytes>)
    requires Layout(s, words, blanks)
    ensures Fields(s) == words
  {
    LayoutFields(words, blanks);
  }

  /** One more blank before a layout. */
  function Widened(b: Bytes, blanks: seq<Bytes>): seq<Bytes>
    requires |blanks| > 0
  {
    [b + blanks[0]] + blanks[1..]
  }

  lemma {:induction false} WidenedLayout(b: Bytes, words: seq<Bytes>, blanks: seq<Bytes>)
    requires Blanks(b) && Apart(words, blanks)
    ensures Apart(words, Widened(b, blanks)) && Weave(words, Widened(b, blanks)) == b + Weave(words, blanks)
  {
    BlanksJoin(b, blanks[0]);
    if |words| > 0 {
      assert Widened(b, blanks)[1..] == blanks[1..];
      Pieces(b, blanks[0], words[0] + Weave(words[1..], blanks[1..]));
    }
  }

  lemma {:induction false} Prefixed(word: Bytes, words: seq<Bytes>, blanks: seq<Bytes>)
    requires Solid(word) && Apart(words, blanks) && (|words| > 0 ==> |blanks[0]| > 0)
    ensures Apart([word] + words, [[]] + blanks)
    ensures Weave([word] + words, [[]] + blanks) == word + Weave(words, blanks)
  {
    var ws, bs := [word] + words, [[]] + blanks;
    assert ws[1..] == words && bs[1..] == blanks;
    assert Weave(ws, bs) == [] + (word + Weave(words, blanks));
  }

  lemma {:induction false} SolidHere(word: Bytes, s: Bytes)
    requires |word| > 0 && forall i | 0 <= i < |word| :: SpaceWidth(word[i..] + s) == 0
    ensures Solid(word)
  {
    forall i | 0 <= i < |word|
      ensures SpaceWidth(word[i..]) == 0
    {
      if SpaceWidth(word[i..]) > 0 {
        SpaceStays(word[i..], s);
      }
    }
  }

  lemma {:induction false} LaidOutEnd(word: Bytes) returns (blanks: seq<Bytes>)
    requires |word| > 0 ==> Solid(word)
    ensures Apart(Words([], word), blanks) && Weave(Words([], word), blanks) == word
    ensures |word| > 0 ==> blanks[0] == []
  {
    blanks := [[]];
    if |word| > 0 {
      blanks := [[]] + [[]];
      Prefixed(word, [], [[]]);
      assert [word] + [] == [word] && word + [] == word;
    }
  }

  lemma {:induction false} LaidOutBlank(s: Bytes, word: Bytes, rest: seq<Bytes>) returns (blanks: seq<Bytes>)
    requires SpaceWidth(s) > 0 && (|word| > 0 ==> Solid(word))
    requires var words := Words(s[SpaceWidth(s)..], []); Apart(words, rest) && Weave(words, rest) == s[SpaceWidth(s)..]
    ensures Apart(Words(s, word), blanks) && Weave(Words(s, word), blanks) == word + s
    ensures |word| > 0 ==> blanks[0] == []
  {
    var w := SpaceWidth(s);
    var words := Words(s[w..], []);
    OneBlank(s);
    WidenedLayout(s[..w], words, rest);
    blanks := Widened(s[..w], rest);
    assert s[..w] + s[w..] == s;
    if |word| > 0 {
      Prefixed(word, words, blanks);
      blanks := [[]] + blanks;
    } else {
      assert [] + words == words && word + s == s;
    }
  }

  lemma {:induction false} LongerWord(s: Bytes, word: Bytes)
    requires |s| > 0 && SpaceWidth(s) == 0 && forall i | 0 <= i < |word| :: SpaceWidth(word[i..] + s) == 0
    ensures forall i | 0 <= i < |word + [s[0]]| :: SpaceWidth((word + [s[0]])[i..] + s[1..]) == 0
    ensures word + [s[0]] + s[1..] == word + s
  {
    var longer := word + [s[0]];
    forall i | 0 <= i < |longer|
      ensures SpaceWidth(longer[i..] + s[1..]) == 0
    {
      if i < |word| {
        assert longer[i..] + s[1..] == word[i..] + s;
      } else {
        assert longer[i..] + s[1..] == s;
      }
    }
  }

  lemma {:induction false} WordsLaidOut(s: Bytes, word: Bytes) returns (blanks: seq<Bytes>)
    requires forall i | 0 <= i < |word| :: SpaceWidth(word[i..] + s) == 0
    ensures Apart(Words(s, word), blanks) && Weave(Words(s, word), blanks) == word + s
    ensures |word| > 0 ==> blanks[0] == []
  {
    if |s| > 0 && SpaceWidth(s) == 0 {
      LongerWord(s, word);
      blanks := WordsLaidOut(s[1..], word + [s[0]]);
    } else {
      if |word| > 0 {
        SolidHere(word, s);
      }
      if |s| == 0 {
        blanks := LaidOutEnd(word);
        assert word + s == word;
      } else {
        var rest := WordsLaidOut(s[SpaceWidth(s)..], []);
        assert [] + s[SpaceWidth(s)..] == s[SpaceWidth(s)..];
        blanks := LaidOutBlank(s, word, rest);
      }
    }
  }

  /** The fields of a line are its words: the line is laid out with them and
      with nothing else but white space, and with no other words. */
  lemma {:induction false} FieldsAreWords(s: Bytes, words: seq<Bytes>)
    ensures (exists blanks :: Layout(s, words, blanks)) <==> words == Fields(s)
  {
    var blanks := WordsLaidOut(s, []);
    assert Layout(s, Fields(s), blanks);
    if other :| Layout(s, words, other) {
      LayoutIsFields(s, words, other);
    }
  }
}
