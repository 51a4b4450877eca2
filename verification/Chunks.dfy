/** Greedy chunking of a knowledge source: bounded parts, no word lost, and as few parts as possible. */
module KnowledgeChunks {
  import opened Basics

  datatype ChunkError = LimitTooSmall | EmptySource | WordTooLong

  // What separates words: the blanks of Unicode.
  predicate IsBlank(c: char) {
    var n := c as int;
    || 9 <= n <= 13 || 28 <= n <= 32 || n == 133 || n == 160 || n == 5760
    || 8192 <= n <= 8202 || n == 8232 || n == 8233 || n == 8239 || n == 8287 || n == 12288
  }

  predicate IsWord(w: string) {
    w != "" && forall c <- w :: !IsBlank(c)
  }

  /** The maximal blank-free pieces of a text; word is the piece that is still open. */
  function Pieces(text: string, word: string): seq<string> {
    if text == "" then (if word == "" then [] else [word])
    else if IsBlank(text[0]) then (if word == "" then [] else [word]) + Pieces(text[1..], "")
    else Pieces(text[1..], word + [text[0]])
  }

  function Words(text: string): seq<string> {
    Pieces(text, "")
  }

  /** Words joined by single spaces. */
  function Joined(words: seq<string>): string {
    if words == [] then ""
    else if |words| == 1 then words[0]
    else Joined(words[..|words| - 1]) + " " + words[|words| - 1]
  }

  function Flattened(groups: seq<seq<string>>): seq<string> {
    if groups == [] then [] else groups[0] + Flattened(groups[1..])
  }

  predicate Fits(words: seq<string>, maxChars: int) {
    |Joined(words)| <= maxChars
  }

  /** A division of the words into consecutive groups, none empty and none over the limit. */
  predicate Division(groups: seq<seq<string>>, words: seq<string>, maxChars: int) {
    && Flattened(groups) == words
    && forall i :: 0 <= i < |groups| ==> groups[i] != [] && Fits(groups[i], maxChars)
  }

  predicate NoneEmpty(groups: seq<seq<string>>) {
    forall i :: 0 <= i < |groups| ==> groups[i] != []
  }

  // No group has room for the first word of the next.
  predicate Tight(groups: seq<seq<string>>, maxChars: int) {
    && NoneEmpty(groups)
    && forall i :: 0 < i < |groups| ==> !Fits(groups[i - 1] + [groups[i][0]], maxChars)
  }

  function JoinedEach(groups: seq<seq<string>>): seq<string> {
    seq(|groups|, i requires 0 <= i < |groups| => Joined(groups[i]))
  }

  // ---------------------------------------------------------------- joining and splitting

  lemma {:induction false} PiecesAreWords(text: string, word: string)
    requires forall c <- word :: !IsBlank(c)
    ensures forall w <- Pieces(text, word) :: IsWord(w)
    decreases |text|
  {
    if text != "" {
      if IsBlank(text[0]) {
        PiecesAreWords(text[1..], "");
      } else {
        PiecesAreWords(text[1..], word + [text[0]]);
      }
    }
  }

  lemma {:induction false} PiecesOfWord(open: string, word: string, rest: string)
    requires forall c <- open :: !IsBlank(c)
    ensures Pieces(open + rest, word) == Pieces(rest, word + open)
    decreases |open|
  {
    if open == "" {
      assert open + rest == rest && word + open == word;
    } else {
      assert (open + rest)[1..] == open[1..] + rest;
      assert word + [open[0]] + open[1..] == word + open;
      PiecesOfWord(open[1..], word + [open[0]], rest);
    }
  }

  lemma {:induction false} JoinedAppends(u: seq<string>, v: seq<string>)
    requires u != [] && v != []
    ensures Joined(u + v) == Joined(u) + " " + Joined(v)
    decreases |v|
  {
    assert (u + v)[..|u + v| - 1] == u + v[..|v| - 1];
    if |v| > 1 {
      JoinedAppends(u, v[..|v| - 1]);
    } else {
      assert u + v[..0] == u;
    }
  }

  /** Splitting what was joined by spaces gives the words back. */
  lemma {:induction false} WordsOfJoined(words: seq<string>)
    requires forall w <- words :: IsWord(w)
    ensures Words(Joined(words)) == words
    decreases |words|
  {
    if words != [] {
      var first, rest := words[0], words[1..];
      assert IsWord(words[0]);
      if rest == [] {
        assert words == [first];
        assert first + "" == first && "" + first == first;
        PiecesOfWord(first, "", "");
      } else {
        assert words == [first] + rest;
        JoinedAppends([first], rest);
        assert Joined(words) == first + (" " + Joined(rest));
        PiecesOfWord(first, "", " " + Joined(rest));
        assert "" + first == first;
        assert (" " + Joined(rest))[1..] == Joined(rest);
        WordsOfJoined(rest);
      }
    }
  }

  lemma {:induction false} FlattenedAppends(groups: seq<seq<string>>, g: seq<string>)
    ensures Flattened(groups + [g]) == Flattened(groups) + g
  {
    if groups == [] {
      assert groups + [g] == [g];
      assert Flattened([g]) == g + Flattened([]);
    } else {
      assert (groups + [g])[1..] == groups[1..] + [g];
      FlattenedAppends(groups[1..], g);
    }
  }

  /** Joining the joined groups is joining all their words. */
  lemma {:induction false} JoinedOfGroups(groups: seq<seq<string>>)
    requires NoneEmpty(groups)
    ensures Joined(JoinedEach(groups)) == Joined(Flattened(groups))
  {
    if groups != [] {
      var n := |groups| - 1;
      var front := groups[..n];
      assert groups == front + [groups[n]];
      JoinedOfGroups(front);
      FlattenedAppends(front, groups[n]);
      assert JoinedEach(groups)[..n] == JoinedEach(front);
      if front == [] {
        assert Flattened(groups) == groups[n];
      } else {
        assert front[0] != [] && front[0] <= Flattened(front);
        JoinedAppends(Flattened(front), groups[n]);
      }
    }
  }

  // ---------------------------------------------------------------- optimality

  /** Any consecutive part of a group is no longer than the group. */
  lemma PartFits(before: seq<string>, part: seq<string>, after: seq<string>, maxChars: int)
    requires part != [] && Fits(before + part + after, maxChars)
    ensures Fits(part, maxChars)
  {
    if before != [] {
      JoinedAppends(before, part);
    } else {
      assert before + part == part;
    }
    if after != [] {
      JoinedAppends(before + part, after);
    } else {
      assert before + part + after == before + part;
    }
  }

  /**
   * A tight division of the last part of the words needs no more groups than any division of all of them:
   * the tight one stays ahead, group by group.
   */
  lemma {:induction false} TightStaysAhead(
      skipped: seq<string>, tight: seq<seq<string>>, other: seq<seq<string>>, maxChars: int)
    requires Tight(tight, maxChars)
    requires Division(other, skipped + Flattened(tight), maxChars)
    ensures |tight| <= |other|
    decreases |other|
  {
    hide Fits, Joined;
    if tight != [] {
      var g, a, h := tight[0], Flattened(tight), other[0];
      assert a == g + Flattened(tight[1..]) && a != [];
      DivisionTail(other, skipped + a, maxChars);
      if |skipped| >= |h| {
        DropPast(skipped, a, |h|);
        TightStaysAhead(skipped[|h|..], tight, other[1..], maxChars);
      } else {
        NoRoomForNext(skipped, tight, h, maxChars);
        DropInto(skipped, g, Flattened(tight[1..]), |h|);
        TightTail(tight, maxChars);
        TightStaysAhead((skipped + g)[|h|..], tight[1..], other[1..], maxChars);
      }
    }
  }

  lemma DivisionTail(groups: seq<seq<string>>, words: seq<string>, maxChars: int)
    requires Division(groups, words, maxChars) && words != []
    ensures groups != [] && groups[0] != [] && Fits(groups[0], maxChars)
    ensures |groups[0]| <= |words| && groups[0] == words[..|groups[0]|]
    ensures Division(groups[1..], words[|groups[0]|..], maxChars)
  {
    hide Fits;
    assert words == groups[0] + Flattened(groups[1..]);
  }

  lemma DropPast(s: seq<string>, a: seq<string>, k: nat)
    requires k <= |s|
    ensures (s + a)[k..] == s[k..] + a
  {
  }

  lemma DropInto(s: seq<string>, g: seq<string>, rest: seq<string>, k: nat)
    requires k <= |s| + |g|
    ensures (s + (g + rest))[k..] == (s + g)[k..] + rest
  {
  }

  lemma TightTail(tight: seq<seq<string>>, maxChars: int)
    requires Tight(tight, maxChars) && tight != []
    ensures Tight(tight[1..], maxChars)
  {
    var rest := tight[1..];
    forall i | 0 < i < |rest| ensures !Fits(rest[i - 1] + [rest[i][0]], maxChars) {
      assert rest[i - 1] == tight[i] && rest[i] == tight[i + 1];
      assert !Fits(tight[(i + 1) - 1] + [tight[i + 1][0]], maxChars);
    }
  }

  /** A fitting group does not reach past the first tight group. */
  lemma NoRoomForNext(skipped: seq<string>, tight: seq<seq<string>>, h: seq<string>, maxChars: int)
    requires Tight(tight, maxChars) && tight != [] && Fits(h, maxChars)
    requires |h| <= |skipped + Flattened(tight)| && h == (skipped + Flattened(tight))[..|h|]
    ensures |h| <= |skipped| + |tight[0]|
  {
    hide Fits, Joined;
    var g, rest := tight[0], Flattened(tight[1..]);
    assert Flattened(tight) == g + rest;
    if |skipped| + |g| < |h| {
      assert tight[1..] != [];
      assert rest == tight[1] + Flattened(tight[1..][1..]);
      var next := g + [tight[1][0]];
      NextIsPrefix(skipped, g, rest, |h|);
      PartFits(skipped, next, rest[1..|h| - |skipped| - |g|], maxChars);
    }
  }

  lemma NextIsPrefix(skipped: seq<string>, g: seq<string>, rest: seq<string>, k: nat)
    requires rest != [] && |skipped| + |g| < k <= |skipped| + |g| + |rest|
    ensures (skipped + (g + rest))[..k] == skipped + (g + [rest[0]]) + rest[1..k - |skipped| - |g|]
  {
  }

  /** Main result: no division of the words within the limit has fewer groups than a tight one. */
  lemma TightIsOptimal(tight: seq<seq<string>>, other: seq<seq<string>>, words: seq<string>, maxChars: int)
    requires Tight(tight, maxChars) && Division(tight, words, maxChars) && Division(other, words, maxChars)
    ensures |tight| <= |other|
  {
    assert [] + Flattened(tight) == words;
    TightStaysAhead([], tight, other, maxChars);
  }

  // ---------------------------------------------------------------- the algorithm

  const MIN_CHUNK := 100

  function Refusal(words: seq<string>, maxChars: int): Option<ChunkError> {
    if maxChars < MIN_CHUNK then Some(LimitTooSmall)
    else if words == [] then Some(EmptySource)
    else if exists w <- words :: |w| > maxChars then Some(WordTooLong)
    else None
  }

  /**
   * Packs the words of a text greedily. The chunks are a division of its words within the limit, splitting
   * the chunks joined by spaces gives the same words, and no division has fewer groups.
   */
  method SplitChunks(text: string, maxChars: int) returns (r: Result<seq<string>, ChunkError>)
    ensures
      match Refusal(Words(text), maxChars)
      case Some(e) => r == Err(e)
      case None => r.Ok? && Packed(text, r.value, maxChars)
  {
    hide Pieces, IsBlank, Packed, Tight, Division, Flattened, Joined, Covers;
    if maxChars < MIN_CHUNK {
      return Err(LimitTooSmall);
    }
    var words := Words(text);
    PiecesAreWords(text, "");
    if words == [] {
      return Err(EmptySource);
    }
    var chunks: seq<string>, current := [], "";
    ghost var groups: seq<seq<string>>, last: seq<string> := [], [];
    NothingYet(maxChars);
    for i := 0 to |words|
      invariant chunks == JoinedEach(groups) && current == Joined(last)
      invariant current == "" <==> last == []
      invariant last == [] ==> groups == []
      invariant forall k :: 0 <= k < i ==> |words[k]| <= maxChars
      invariant Covers(groups, last, words[..i], maxChars)
    {
      var word := words[i];
      if |word| > maxChars {
        assert word in words;
        return Err(WordTooLong);
      }
      var proposed := if current != "" then current + " " + word else word;
      assert words[..i + 1] == words[..i] + [word];
      assert IsWord(words[i]);
      JoinedNext(last, word);
      CoversNext(groups, last, words[..i], word, maxChars);
      if |proposed| > maxChars {
        chunks := chunks + [current];
        current := word;
        groups, last := groups + [last], [word];
      } else {
        current := proposed;
        last := last + [word];
      }
    }
    assert words[..|words|] == words;
    SomethingIsOpen(groups, last, words, maxChars);
    if current != "" {
      chunks := chunks + [current];
      groups := groups + [last];
    }
    assert groups[..|groups| - 1] + [last] == groups;
    AllCovered(groups, last, words, maxChars);
    assert chunks == JoinedEach(groups);
    TightIsPacked(text, groups, maxChars);
    return Ok(chunks);
  }

  /** What the chunks of a text promise. */
  ghost predicate Packed(text: string, chunks: seq<string>, maxChars: int) {
    && (exists groups :: Division(groups, Words(text), maxChars) && chunks == JoinedEach(groups))
    && Words(Joined(chunks)) == Words(text)
    && (forall c <- chunks :: 0 < |c| <= maxChars)
    && forall other :: Division(other, Words(text), maxChars) ==> |chunks| <= |other|
  }

  lemma TightIsPacked(text: string, groups: seq<seq<string>>, maxChars: int)
    requires Division(groups, Words(text), maxChars) && Tight(groups, maxChars)
    ensures Packed(text, JoinedEach(groups), maxChars)
  {
    hide Pieces, IsBlank, Tight, Flattened, Joined, IsWord, Fits;
    PiecesAreWords(text, "");
    JoinedOfGroups(groups);
    WordsOfJoined(Words(text));
    forall i | 0 <= i < |groups| ensures 0 < |Joined(groups[i])| <= maxChars {
      GroupIsChunk(groups, i, maxChars);
    }
    forall other | Division(other, Words(text), maxChars) ensures |groups| <= |other| {
      TightIsOptimal(groups, other, Words(text), maxChars);
    }
  }

  lemma GroupIsChunk(groups: seq<seq<string>>, i: nat, maxChars: int)
    requires i < |groups| && groups[i] != [] && Fits(groups[i], maxChars)
    requires forall w <- Flattened(groups) :: IsWord(w)
    ensures 0 < |Joined(groups[i])| <= maxChars
  {
    hide IsBlank;
    var n := |groups[i]| - 1;
    assert groups[i] == groups[i][..n] + [groups[i][n]];
    GroupWords(groups, i);
    assert groups[i][n] in groups[i] && IsWord(groups[i][n]);
    JoinedNext(groups[i][..n], groups[i][n]);
  }

  lemma {:induction false} GroupWords(groups: seq<seq<string>>, i: nat)
    requires i < |groups|
    ensures forall w <- groups[i] :: w in Flattened(groups)
  {
    if i > 0 {
      GroupWords(groups[1..], i - 1);
    }
  }

  lemma JoinedNext(last: seq<string>, word: string)
    requires word != ""
    ensures Joined(last + [word]) == if last == [] then word else Joined(last) + " " + word
    ensures Joined(last + [word]) != ""
  {
    assert (last + [word])[..|last|] == last;
  }

  // The finished groups and the open one divide the words seen so far, tightly.
  predicate Covers(groups: seq<seq<string>>, last: seq<string>, words: seq<string>, maxChars: int) {
    var all := if last == [] then groups else groups + [last];
    Division(all, words, maxChars) && Tight(all, maxChars)
  }

  lemma NothingYet(maxChars: int)
    requires maxChars >= MIN_CHUNK
    ensures Covers([], [], [], maxChars) && Joined([]) == ""
  {
  }

  lemma SomethingIsOpen(groups: seq<seq<string>>, last: seq<string>, words: seq<string>, maxChars: int)
    requires Covers(groups, last, words, maxChars) && words != [] && (last == [] ==> groups == [])
    ensures last != []
  {
  }

  lemma CoversNext(groups: seq<seq<string>>, last: seq<string>, words: seq<string>, word: string, maxChars: int)
    requires Covers(groups, last, words, maxChars) && |word| <= maxChars && word != ""
    requires last == [] ==> groups == []
    ensures !Fits(last + [word], maxChars) ==> last != [] && Covers(groups + [last], [word], words + [word], maxChars)
    ensures Fits(last + [word], maxChars) ==> Covers(groups, last + [word], words + [word], maxChars)
    ensures Joined([word]) == word
  {
    hide Joined, Flattened, Tight, Fits;
    OneWordFits(word, maxChars);
    if last == [] {
      FirstWord(words, word, maxChars);
      assert last + [word] == [word];
    } else if Fits(last + [word], maxChars) {
      DivisionExtends(groups, last, words, word, maxChars);
      SameGroup(groups, last, word, maxChars);
    } else {
      DivisionOpens(groups + [last], words, word, maxChars);
      NextGroup(groups, last, word, maxChars);
    }
  }

  lemma OneWordFits(word: string, maxChars: int)
    requires |word| <= maxChars
    ensures Fits([word], maxChars) && Joined([word]) == word
  {
  }

  lemma FirstWord(words: seq<string>, word: string, maxChars: int)
    requires Covers([], [], words, maxChars) && Fits([word], maxChars)
    ensures Covers([], [word], words + [word], maxChars)
  {
    FlattenedAppends([], [word]);
    assert [] + [[word]] == [[word]];
  }

  lemma DivisionExtends(groups: seq<seq<string>>, last: seq<string>, words: seq<string>, word: string, maxChars: int)
    requires Division(groups + [last], words, maxChars) && Fits(last + [word], maxChars)
    ensures Division(groups + [last + [word]], words + [word], maxChars)
  {
    hide Joined, Fits, Flattened;
    FlattenedAppends(groups, last);
    FlattenedAppends(groups, last + [word]);
    var before := groups + [last];
    assert forall i :: 0 <= i < |groups| ==> before[i] == groups[i];
  }

  lemma DivisionOpens(groups: seq<seq<string>>, words: seq<string>, word: string, maxChars: int)
    requires Division(groups, words, maxChars) && Fits([word], maxChars)
    ensures Division(groups + [[word]], words + [word], maxChars)
  {
    hide Joined, Fits, Flattened;
    FlattenedAppends(groups, [word]);
  }

  lemma AllCovered(groups: seq<seq<string>>, last: seq<string>, words: seq<string>, maxChars: int)
    requires groups != [] && last == groups[|groups| - 1] && last != []
    requires Covers(groups[..|groups| - 1], last, words, maxChars)
    ensures Division(groups, words, maxChars) && Tight(groups, maxChars)
  {
    assert groups == groups[..|groups| - 1] + [last];
  }

  lemma NextGroup(groups: seq<seq<string>>, last: seq<string>, word: string, maxChars: int)
    requires last != [] && Tight(groups + [last], maxChars) && !Fits(last + [word], maxChars)
    ensures Tight(groups + [last] + [[word]], maxChars)
  {
    var before, all := groups + [last], groups + [last] + [[word]];
    forall i | 0 < i < |all| ensures !Fits(all[i - 1] + [all[i][0]], maxChars) {
      if i < |before| {
        assert !Fits(before[i - 1] + [before[i][0]], maxChars);
      }
    }
  }

  lemma SameGroup(groups: seq<seq<string>>, last: seq<string>, word: string, maxChars: int)
    requires Tight(if last == [] then groups else groups + [last], maxChars)
    requires last == [] ==> groups == []
    ensures Tight(groups + [last + [word]], maxChars)
  {
    var before, all := groups + [last], groups + [last + [word]];
    forall i | 0 < i < |all| ensures !Fits(all[i - 1] + [all[i][0]], maxChars) {
      assert !Fits(before[i - 1] + [before[i][0]], maxChars);
      assert all[i][0] == before[i][0] && all[i - 1] == before[i - 1];
    }
  }
}
