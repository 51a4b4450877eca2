/** Splitting a long message: nothing lost, every part within the limit, and cut after a blank where possible. */
module MaxText {
  import opened Basics

  datatype TextError = LimitNotPositive

  /** The highest position of sub in s at or below i, or -1. */
  function RFindFrom(s: string, sub: string, i: int): int
    requires i <= |s|
    decreases i + 1
  {
    if i < 0 then -1
    else if i + |sub| <= |s| && s[i..i + |sub|] == sub then i
    else RFindFrom(s, sub, i - 1)
  }

  function RFind(s: string, sub: string): int {
    RFindFrom(s, sub, |s|)
  }

  predicate OccursAt(s: string, sub: string, i: int) {
    0 <= i && i + |sub| <= |s| && s[i..i + |sub|] == sub
  }

  lemma {:induction false} RFindFromFinds(s: string, sub: string, i: int)
    requires i <= |s|
    ensures
      var r := RFindFrom(s, sub, i);
      && -1 <= r && (r < 0 || OccursAt(s, sub, r)) && forall k :: r < k <= i ==> !OccursAt(s, sub, k)
    decreases i + 1
  {
    if i >= 0 && !OccursAt(s, sub, i) {
      RFindFromFinds(s, sub, i - 1);
    }
  }

  function Max(a: int, b: int): int {
    if a < b then b else a
  }

  function Boundary(window: string): int {
    Max(RFind(window, "\n\n"), Max(RFind(window, "\n"), RFind(window, " ")))
  }

  predicate IsBreak(c: char) {
    c == '\n' || c == ' '
  }

  /** The search for an empty line never decides: a single line break is found at least as far right. */
  lemma EmptyLineIsRedundant(window: string)
    ensures RFind(window, "\n\n") <= RFind(window, "\n")
    ensures Boundary(window) == Max(RFind(window, "\n"), RFind(window, " "))
  {
    RFindFromFinds(window, "\n\n", |window|);
    RFindFromFinds(window, "\n", |window|);
    var r := RFind(window, "\n\n");
    if r >= 0 {
      assert window[r..r + 2][1] == window[r + 1];
      assert OccursAt(window, "\n", r + 1);
    }
  }

  /** The boundary is the last blank or line break of the window. */
  lemma BoundaryIsLastBreak(window: string)
    ensures
      var b := Boundary(window);
      && -1 <= b < |window| && (b >= 0 ==> IsBreak(window[b]))
      && forall p :: b < p < |window| ==> !IsBreak(window[p])
  {
    EmptyLineIsRedundant(window);
    RFindFromFinds(window, "\n", |window|);
    RFindFromFinds(window, " ", |window|);
    var b := Boundary(window);
    forall p | b < p < |window| ensures !IsBreak(window[p]) {
      assert window[p..p + 1] == [window[p]];
      assert !OccursAt(window, "\n", p) && !OccursAt(window, " ", p);
    }
  }

  /** A cut of a text that is too long: after its last break in the far half of the limit, else at the limit. */
  predicate IsCut(text: string, limit: int, b: int)
    requires 1 <= limit < |text|
  {
    if exists p :: limit / 2 <= p < limit && IsBreak(text[p]) then
      && limit / 2 < b <= limit && IsBreak(text[b - 1])
      && forall p :: b <= p < limit ==> !IsBreak(text[p])
    else b == limit
  }

  /** The parts a text is to be sent in. */
  predicate Parts(text: string, limit: int, parts: seq<string>)
    requires 1 <= limit
    decreases |parts|
  {
    if |text| <= limit then parts == (if text == "" then [] else [text])
    else
      && parts != [] && 0 < |parts[0]| <= |text| && IsCut(text, limit, |parts[0]|)
      && parts[0] == text[..|parts[0]|] && Parts(text[|parts[0]|..], limit, parts[1..])
  }

  function Concat(parts: seq<string>): string {
    if parts == [] then "" else parts[0] + Concat(parts[1..])
  }

  lemma CutIsUnique(text: string, limit: int, i: int, j: int)
    requires 1 <= limit < |text| && IsCut(text, limit, i) && IsCut(text, limit, j)
    ensures i == j
  {
    if exists p :: limit / 2 <= p < limit && IsBreak(text[p]) {
      assert !(i <= j - 1 < limit) && !(j <= i - 1 < limit);
    }
  }

  lemma CutIsInRange(text: string, limit: int, b: int)
    requires 1 <= limit < |text| && IsCut(text, limit, b)
    ensures limit / 2 + 1 <= b <= limit
  {
  }

  /** A text has only one such list of parts. */
  lemma {:induction false} PartsAreUnique(text: string, limit: int, a: seq<string>, b: seq<string>)
    requires 1 <= limit && Parts(text, limit, a) && Parts(text, limit, b)
    ensures a == b
    decreases |text|
  {
    if |text| > limit {
      CutIsUnique(text, limit, |a[0]|, |b[0]|);
      PartsAreUnique(text[|a[0]|..], limit, a[1..], b[1..]);
      assert a == [a[0]] + a[1..] && b == [b[0]] + b[1..];
    }
  }

  /**
   * Main result: the parts concatenate to the text; each is within the limit and not empty; all but the last
   * are longer than half the limit, which bounds how many there are.
   */
  lemma {:induction false} PartsAreLossless(text: string, limit: int, parts: seq<string>)
    requires 1 <= limit && Parts(text, limit, parts)
    ensures Concat(parts) == text
    ensures forall i :: 0 <= i < |parts| ==> 1 <= |parts[i]| <= limit
    ensures forall i :: 0 <= i < |parts| - 1 ==> |parts[i]| >= limit / 2 + 1
    ensures parts != [] ==> (|parts| - 1) * (limit / 2 + 1) < |text|
    ensures parts == [] <==> text == ""
    decreases |text|
  {
    if |text| > limit {
      var b, n, half := |parts[0]|, |parts| - 1, limit / 2 + 1;
      CutIsInRange(text, limit, b);
      PartsAreLossless(text[b..], limit, parts[1..]);
      assert text == text[..b] + text[b..];
      assert n * half == (n - 1) * half + half;
    } else if text != "" {
      assert parts == [text] && Concat(parts) == text + Concat([]);
    }
  }

  method SplitMaxText(text: string, limit: int) returns (r: Result<seq<string>, TextError>)
    ensures r.Err? <==> limit < 1
    ensures r.Ok? ==>
      && Parts(text, limit, r.value) && Concat(r.value) == text
      && (forall i :: 0 <= i < |r.value| ==> 1 <= |r.value[i]| <= limit)
  {
    if limit < 1 {
      return Err(LimitNotPositive);
    }
    if text == "" {
      return Ok([]);
    }
    hide Parts, IsCut, Boundary, Concat, Awaits;
    var chunks: seq<string>, remaining := [], text;
    NothingCut(text, limit);
    while |remaining| > limit
      invariant remaining != "" && Awaits(text, limit, chunks, remaining)
      decreases |remaining|
    {
      var window := remaining[..limit];
      var boundary := Boundary(window);
      if boundary < limit / 2 {
        boundary := limit;
      } else {
        boundary := boundary + 1;
      }
      CodeCuts(remaining, limit, boundary);
      CutAdvances(text, limit, chunks, remaining, boundary);
      chunks := chunks + [remaining[..boundary]];
      remaining := remaining[boundary..];
    }
    AllCut(text, limit, chunks, remaining);
    chunks := chunks + [remaining];
    PartsAreLossless(text, limit, chunks);
    return Ok(chunks);
  }

  /** Where the code cuts. */
  lemma CodeCuts(text: string, limit: int, b: int)
    requires 1 <= limit < |text|
    requires b == if Boundary(text[..limit]) < limit / 2 then limit else Boundary(text[..limit]) + 1
    ensures IsCut(text, limit, b) && limit / 2 + 1 <= b <= limit
  {
    hide Boundary;
    var window := text[..limit];
    BoundaryIsLastBreak(window);
    assert forall p :: 0 <= p < limit ==> window[p] == text[p];
  }

  // The chunks cut so far, followed by the parts of what remains, are the parts of the text.
  ghost predicate Awaits(text: string, limit: int, chunks: seq<string>, remaining: string)
    requires 1 <= limit
  {
    forall rest :: Parts(remaining, limit, rest) ==> Parts(text, limit, chunks + rest)
  }

  lemma NothingCut(text: string, limit: int)
    requires 1 <= limit
    ensures Awaits(text, limit, [], text)
  {
    assert forall rest: seq<string> :: [] + rest == rest;
  }

  lemma CutAdvances(text: string, limit: int, chunks: seq<string>, remaining: string, b: int)
    requires 1 <= limit < |remaining| && 0 < b <= limit && IsCut(remaining, limit, b)
    requires Awaits(text, limit, chunks, remaining)
    ensures Awaits(text, limit, chunks + [remaining[..b]], remaining[b..])
  {
    hide IsCut;
    var chunk := remaining[..b];
    forall rest | Parts(remaining[b..], limit, rest) ensures Parts(text, limit, chunks + [chunk] + rest) {
      assert ([chunk] + rest)[1..] == rest;
      assert Parts(remaining, limit, [chunk] + rest);
      assert chunks + ([chunk] + rest) == chunks + [chunk] + rest;
    }
  }

  lemma AllCut(text: string, limit: int, chunks: seq<string>, remaining: string)
    requires 1 <= limit && remaining != "" && |remaining| <= limit && Awaits(text, limit, chunks, remaining)
    ensures Parts(text, limit, chunks + [remaining])
  {
    assert Parts(remaining, limit, [remaining]);
  }
}
