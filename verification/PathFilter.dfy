/** Include and exclude filters: a list of regular expressions written as one
    string, separated by `**`. A backslash protects the star after it. */
module PathFilter {
  import opened Options

  // ------------------------------------------------------------ the scanner

  /** The scanner's state: 0, 1 after a single star, -1 after a backslash. */
  function Step(m: int, c: char): int {
    if c == '\\' then -1
    else if m == 0 && c == '*' then 1
    else 0
  }

  function State(s: string): int {
    if s == "" then 0 else Step(State(s[..|s| - 1]), s[|s| - 1])
  }

  /** The scanner splits at the star at index k. */
  predicate SplitsAt(s: string, k: nat)
    requires k < |s|
  {
    State(s[..k]) == 1 && s[k] == '*'
  }

  predicate Unsplit(s: string) {
    forall k :: 0 <= k < |s| ==> !SplitsAt(s, k)
  }

  /** The pieces, when `current` has been scanned since the last split. */
  function Pieces(current: string, rest: string): seq<string>
    decreases |rest|
  {
    if rest == "" then
      if current == "" then [] else [current]
    else if State(current) == 1 && rest[0] == '*' then
      [current[..|current| - 1]] + Pieces("", rest[1..])
    else
      Pieces(current + [rest[0]], rest[1..])
  }

  function Split(s: string): seq<string> {
    Pieces("", s)
  }

  /** The pieces with `**` between them. */
  function Join(pieces: seq<string>): string {
    if pieces == [] then ""
    else if |pieces| == 1 then pieces[0]
    else pieces[0] + "**" + Join(pieces[1..])
  }

  lemma StateOne(s: string)
    requires State(s) == 1
    ensures s != "" && s[|s| - 1] == '*' && State(s[..|s| - 1]) == 0
  {}

  lemma UnsplitNext(s: string, c: char)
    ensures State(s + [c]) == Step(State(s), c)
    ensures Unsplit(s + [c]) <==> Unsplit(s) && !(State(s) == 1 && c == '*')
  {
    var t := s + [c];
    assert t[..|s|] == s;
    assert SplitsAt(t, |s|) <==> State(s) == 1 && c == '*';
    forall k | 0 <= k < |s|
      ensures SplitsAt(t, k) <==> SplitsAt(s, k)
    {
      assert t[..k] == s[..k] && t[k] == s[k];
    }
    if Unsplit(t) {
      assert forall k :: 0 <= k < |s| ==> !SplitsAt(t, k);
      assert !SplitsAt(t, |s|);
    }
  }

  /** From state 0 the scanner has forgotten what came before. */
  lemma {:induction false} StateRestarts(before: string, s: string)
    requires State(before) == 0
    ensures State(before + s) == State(s)
  {
    if s == "" {
      assert before + s == before;
    } else {
      var init := s[..|s| - 1];
      StateRestarts(before, init);
      assert (before + s)[..|before + s| - 1] == before + init;
    }
  }

  lemma UnsplitPrefix(s: string, n: nat)
    requires Unsplit(s) && n <= |s|
    ensures Unsplit(s[..n])
  {
    forall k | 0 <= k < n
      ensures !SplitsAt(s[..n], k)
    {
      assert s[..n][..k] == s[..k];
      assert !SplitsAt(s, k);
    }
  }

  // --------------------------------------------- splitting, then joining again

  /** The string ends in a split that nothing follows. */
  predicate EndsInSplit(s: string) {
    s != "" && SplitsAt(s, |s| - 1)
  }

  lemma EndsLater(before: string, s: string)
    requires State(before) == 0 && s != ""
    ensures EndsInSplit(before + s) <==> EndsInSplit(s)
  {
    var init := s[..|s| - 1];
    assert (before + s)[..|before + s| - 1] == before + init;
    StateRestarts(before, init);
  }

  lemma JoinFirst(piece: string, tail: seq<string>)
    ensures Join([piece] + tail) == if tail == [] then piece else piece + "**" + Join(tail)
  {
    assert ([piece] + tail)[1..] == tail;
  }

  /** The string s that was split is the join j, or j and a trailing `**`. */
  predicate Rejoins(j: string, s: string) {
    s == if EndsInSplit(s) then j + "**" else j
  }

  /** What a split adds in front, on both sides. */
  lemma RejoinsAfterSplit(piece: string, j: string, s: string)
    requires State(piece + "**") == 0 && Rejoins(j, s) && s != ""
    ensures Rejoins(piece + "**" + j, piece + "**" + s)
  {
    EndsLater(piece + "**", s);
    assert piece + "**" + j + "**" == piece + "**" + (j + "**");
  }

  lemma StarStar(current: string) returns (piece: string)
    requires State(current) == 1
    ensures piece == current[..|current| - 1] && current + "*" == piece + "**"
    ensures State(piece + "**") == 0 && EndsInSplit(piece + "**") && State(piece) == 0
  {
    StateOne(current);
    piece := current[..|current| - 1];
    var before := current + "*";
    assert before[..|current|] == current;
    assert before == piece + "**";
  }

  lemma RejoinSplit(piece: string, tail: seq<string>, s: string)
    requires State(piece + "**") == 0 && EndsInSplit(piece + "**")
    requires (tail == [] <==> s == "") && Rejoins(Join(tail), s)
    ensures Rejoins(Join([piece] + tail), piece + "**" + s)
  {
    JoinFirst(piece, tail);
    if s == "" {
      assert piece + "**" + s == piece + "**";
    } else {
      RejoinsAfterSplit(piece, Join(tail), s);
    }
  }

  lemma Regroup(current: string, rest: string)
    requires rest != ""
    ensures current + [rest[0]] + rest[1..] == current + rest
  {
    assert rest == [rest[0]] + rest[1..];
  }

  lemma {:induction false} RejoinPieces(current: string, rest: string)
    requires Unsplit(current)
    ensures Pieces(current, rest) == [] <==> current + rest == ""
    ensures Rejoins(Join(Pieces(current, rest)), current + rest)
    decreases |rest|
  {
    if rest == "" {
      assert current + rest == current;
    } else {
      Regroup(current, rest);
      if State(current) == 1 && rest[0] == '*' {
        var piece := StarStar(current);
        RejoinPieces("", rest[1..]);
        assert "" + rest[1..] == rest[1..];
        RejoinSplit(piece, Pieces("", rest[1..]), rest[1..]);
      } else {
        UnsplitNext(current, rest[0]);
        RejoinPieces(current + [rest[0]], rest[1..]);
      }
    }
  }

  /** Joining the pieces restores every string, up to one trailing `**`; it is
      lost exactly if the string ends in a split. */
  lemma RejoinRestores(s: string)
    ensures s == if EndsInSplit(s) then Join(Split(s)) + "**" else Join(Split(s))
    ensures Join(Split(s)) == s <==> !EndsInSplit(s)
  {
    RejoinPieces("", s);
    assert "" + s == s;
  }

  // --------------------------------------------- joining, then splitting again

  /** All pieces are unsplit and all but the last end in state 0. */
  predicate WellCut(pieces: seq<string>) {
    && (forall k :: 0 <= k < |pieces| ==> Unsplit(pieces[k]))
    && (forall k :: 0 <= k < |pieces| - 1 ==> State(pieces[k]) == 0)
  }

  predicate LastIsNotEmpty(pieces: seq<string>) {
    pieces != [] ==> pieces[|pieces| - 1] != ""
  }

  /** Pieces that keep their boundaries when they are joined. */
  predicate Separable(pieces: seq<string>) {
    WellCut(pieces) && LastIsNotEmpty(pieces)
  }

  lemma {:induction false} PiecesOfUnsplit(current: string, s: string, rest: string)
    requires Unsplit(current + s)
    ensures Pieces(current, s + rest) == Pieces(current + s, rest)
    decreases |s|
  {
    if s == "" {
      assert current + s == current && s + rest == rest;
    } else {
      var c, more := s[0], s[1..];
      assert current + s == current + [c] + more;
      assert (current + s)[..|current| + 1] == current + [c];
      UnsplitPrefix(current + s, |current| + 1);
      UnsplitNext(current, c);
      assert (s + rest)[0] == c && (s + rest)[1..] == more + rest;
      PiecesOfUnsplit(current + [c], more, rest);
    }
  }

  lemma SplitFirst(piece: string, rest: string)
    requires Unsplit(piece) && State(piece) == 0
    ensures Split(piece + "**" + rest) == [piece] + Split(rest)
  {
    var current := piece + "*";
    UnsplitNext(piece, '*');
    assert "" + current == current && piece + "**" + rest == current + ("*" + rest);
    PiecesOfUnsplit("", current, "*" + rest);
    assert ("*" + rest)[1..] == rest && current[..|current| - 1] == piece;
  }

  lemma {:induction false} SplitJoined(pieces: seq<string>)
    requires Separable(pieces)
    ensures Split(Join(pieces)) == pieces
  {
    if |pieces| == 1 {
      var p := pieces[0];
      assert "" + p == p && p + "" == p;
      PiecesOfUnsplit("", p, "");
    } else if |pieces| > 1 {
      SplitFirst(pieces[0], Join(pieces[1..]));
      SplitJoined(pieces[1..]);
    }
  }

  lemma WellCutFirst(piece: string, tail: seq<string>)
    requires Unsplit(piece) && State(piece) == 0 && WellCut(tail)
    ensures WellCut([piece] + tail)
  {}

  /** The pieces are well cut, and the last is not empty unless the string ends
      in a split. */
  lemma {:induction false} PiecesAreWellCut(current: string, rest: string)
    requires Unsplit(current)
    ensures WellCut(Pieces(current, rest))
    ensures !EndsInSplit(current + rest) ==> LastIsNotEmpty(Pieces(current, rest))
    decreases |rest|
  {
    if rest == "" {
      assert current + rest == current;
    } else {
      Regroup(current, rest);
      if State(current) == 1 && rest[0] == '*' {
        var piece := StarStar(current);
        UnsplitPrefix(current, |current| - 1);
        var more := rest[1..];
        PiecesAreWellCut("", more);
        WellCutFirst(piece, Pieces("", more));
        assert "" + more == more;
        if more == "" {
          assert piece + "**" + more == piece + "**";
        } else {
          EndsLater(piece + "**", more);
          RejoinPieces("", more);
        }
      } else {
        UnsplitNext(current, rest[0]);
        PiecesAreWellCut(current + [rest[0]], rest[1..]);
      }
    }
  }

  /** Splitting a join gives the pieces back exactly if they are separable. */
  lemma SplitJoinExactly(pieces: seq<string>)
    ensures Split(Join(pieces)) == pieces <==> Separable(pieces)
  {
    if Separable(pieces) {
      SplitJoined(pieces);
    }
    if Split(Join(pieces)) == pieces {
      var s := Join(pieces);
      RejoinRestores(s);
      assert !EndsInSplit(s);
      PiecesAreWellCut("", s);
      assert "" + s == s;
    }
  }

  // ------------------------------------------------ the cuts, from the text alone

  /** The stars from j on are a maximal run that goes on at least to before k. */
  predicate StarsFrom(s: string, j: nat, k: nat)
    requires j <= k <= |s|
  {
    (forall i :: j <= i < k ==> s[i] == '*') && (j == 0 || s[j - 1] != '*')
  }

  /** The first star of the run is protected by a backslash. */
  predicate Escaped(s: string, j: nat)
    requires j <= |s|
  {
    j > 0 && s[j - 1] == '\\'
  }

  /** The star at k is the second, the fourth and so on of its run of stars, not
      counting a first one that is protected. */
  predicate CutAt(s: string, k: nat)
    requires k < |s|
  {
    exists j :: 0 <= j < k && StarsFrom(s, j, k + 1) && (k - j - if Escaped(s, j) then 1 else 0) % 2 == 1
  }

  lemma StarRunStart(s: string) returns (j: nat)
    ensures j <= |s| && StarsFrom(s, j, |s|)
  {
    j := |s|;
    while j > 0 && s[j - 1] == '*'
      invariant j <= |s| && forall i :: j <= i < |s| ==> s[i] == '*'
    {
      j := j - 1;
    }
  }

  /** After a run of stars the scanner has seen a single star exactly if the run
      is of odd length, not counting a first one that is protected. */
  lemma {:induction false} StateAfterStars(s: string, j: nat)
    requires j <= |s| && StarsFrom(s, j, |s|)
    ensures State(s) == 1 <==> j < |s| && (|s| - j - if Escaped(s, j) then 1 else 0) % 2 == 1
    ensures State(s) == -1 <==> j == |s| && Escaped(s, j)
    decreases |s|
  {
    if j < |s| {
      var init := s[..|s| - 1];
      assert StarsFrom(init, j, |init|) && (Escaped(init, j) <==> Escaped(s, j));
      StateAfterStars(init, j);
    }
  }

  lemma SplitsAtExactly(s: string, k: nat)
    requires k < |s|
    ensures SplitsAt(s, k) <==> CutAt(s, k)
  {
    var before := s[..k];
    var j := StarRunStart(before);
    StateAfterStars(before, j);
    assert Escaped(before, j) <==> Escaped(s, j);
    if SplitsAt(s, k) {
      assert StarsFrom(s, j, k + 1);
    }
    if CutAt(s, k) {
      var i :| 0 <= i < k && StarsFrom(s, i, k + 1) && (k - i - if Escaped(s, i) then 1 else 0) % 2 == 1;
      assert StarsFrom(before, i, k) && (Escaped(before, i) <==> Escaped(s, i));
      StateAfterStars(before, i);
    }
  }

  /** A star directly behind a backslash never belongs to a separator. */
  lemma ProtectedStarStays(s: string, k: nat)
    requires 0 < k < |s| && s[k - 1] == '\\' && s[k] == '*'
    ensures !CutAt(s, k) && (k + 1 < |s| ==> !CutAt(s, k + 1))
  {
  }

  /** Where piece j begins in the text, if two stars follow every piece. */
  function Offset(pieces: seq<string>, j: nat): nat
    requires j <= |pieces|
  {
    if j == 0 then 0 else |pieces[0]| + 2 + Offset(pieces[1..], j - 1)
  }

  predicate LiesAt(s: string, at: nat, piece: string) {
    at + |piece| <= |s| && s[at..at + |piece|] == piece
  }

  predicate CutBehind(pieces: seq<string>, j: nat, k: nat)
    requires j < |pieces|
  {
    Offset(pieces, j + 1) == k + 1
  }

  /** The second star behind some piece is at k. */
  ghost predicate CutBehindSome(pieces: seq<string>, k: nat) {
    exists j :: 0 <= j < |pieces| && CutBehind(pieces, j, k)
  }

  /** The scanner cuts the text behind these pieces and nowhere else. */
  ghost predicate SplitsBehind(s: string, pieces: seq<string>) {
    forall k :: 0 <= k < |s| ==> (SplitsAt(s, k) <==> CutBehindSome(pieces, k))
  }

  ghost predicate AllLie(s: string, pieces: seq<string>) {
    && (forall j :: 0 <= j < |pieces| ==> LiesAt(s, Offset(pieces, j), pieces[j]))
    && (if pieces == [] then s == "" else Offset(pieces, |pieces|) in {|s|, |s| + 2})
  }

  /** Cutting the text exactly at its cuts gives these pieces. */
  ghost predicate CutsExactly(s: string, pieces: seq<string>) {
    && (forall k :: 0 <= k < |s| ==> (CutAt(s, k) <==> CutBehindSome(pieces, k)))
    && AllLie(s, pieces)
  }

  lemma SamePrefixSameCut(s: string, t: string, n: nat, k: nat)
    requires k < n <= |s| && n <= |t| && s[..n] == t[..n]
    ensures SplitsAt(s, k) <==> SplitsAt(t, k)
  {
    assert s[..k] == s[..n][..k] && t[..k] == t[..n][..k];
    assert s[k] == s[..n][k] && t[k] == t[..n][k];
  }

  /** From state 0 the cuts of what follows are those of what follows alone. */
  lemma LaterCut(before: string, rest: string, k: nat)
    requires State(before) == 0 && k < |rest|
    ensures SplitsAt(before + rest, |before| + k) <==> SplitsAt(rest, k)
  {
    assert (before + rest)[..|before| + k] == before + rest[..k];
    StateRestarts(before, rest[..k]);
  }

  lemma NextCut(s: string, c: char, k: nat)
    requires k <= |s|
    ensures SplitsAt(s + [c], k) <==> if k < |s| then SplitsAt(s, k) else State(s) == 1 && c == '*'
  {
    var t := s + [c];
    assert t[..|s|] == s;
    if k < |s| {
      SamePrefixSameCut(t, s, |s|, k);
    }
  }

  lemma CutsOfSeparator(piece: string, k: nat)
    requires Unsplit(piece) && State(piece) == 0 && k < |piece + "**"|
    ensures State(piece + "**") == 0
    ensures SplitsAt(piece + "**", k) <==> k == |piece| + 1
  {
    var star := piece + ['*'];
    assert piece + "**" == star + ['*'];
    UnsplitNext(piece, '*');
    UnsplitNext(star, '*');
    NextCut(star, '*', k);
    if k <= |piece| {
      NextCut(piece, '*', k);
      assert k < |piece| ==> !SplitsAt(piece, k);
    }
  }

  lemma EarlierCut(before: string, rest: string, k: nat)
    requires k < |before|
    ensures SplitsAt(before + rest, k) <==> SplitsAt(before, k)
  {
    assert (before + rest)[..|before|] == before == before[..|before|];
    SamePrefixSameCut(before + rest, before, |before|, k);
  }

  lemma FirstCut(piece: string, rest: string, k: nat)
    requires Unsplit(piece) && State(piece) == 0
    requires k < |piece + "**" + rest|
    ensures SplitsAt(piece + "**" + rest, k) <==>
            k == |piece| + 1 || (k >= |piece| + 2 && SplitsAt(rest, k - |piece| - 2))
  {
    var before := piece + "**";
    if k < |before| {
      CutsOfSeparator(piece, k);
      EarlierCut(before, rest, k);
    } else {
      CutsOfSeparator(piece, 0);
      LaterCut(before, rest, k - |before|);
    }
  }

  lemma BehindFirst(piece: string, tail: seq<string>, k: nat)
    ensures CutBehindSome([piece] + tail, k) <==>
            k == |piece| + 1 || (k >= |piece| + 2 && CutBehindSome(tail, k - |piece| - 2))
  {
    var pieces := [piece] + tail;
    assert pieces[1..] == tail;
    if CutBehindSome(pieces, k) {
      var j :| 0 <= j < |pieces| && CutBehind(pieces, j, k);
      if j > 0 {
        assert CutBehind(tail, j - 1, k - |piece| - 2);
      }
    }
    if k == |piece| + 1 {
      assert CutBehind(pieces, 0, k);
    }
    if k >= |piece| + 2 && CutBehindSome(tail, k - |piece| - 2) {
      var j :| 0 <= j < |tail| && CutBehind(tail, j, k - |piece| - 2);
      assert CutBehind(pieces, j + 1, k);
    }
  }

  lemma SplitsBehindFirst(piece: string, tail: seq<string>, rest: string)
    requires Unsplit(piece) && State(piece) == 0 && SplitsBehind(rest, tail)
    ensures SplitsBehind(piece + "**" + rest, [piece] + tail)
  {
    var s := piece + "**" + rest;
    forall k | 0 <= k < |s|
      ensures SplitsAt(s, k) <==> CutBehindSome([piece] + tail, k)
    {
      FirstCut(piece, rest, k);
      BehindFirst(piece, tail, k);
    }
  }

  lemma LiesLater(before: string, s: string, at: nat, piece: string)
    requires LiesAt(s, at, piece)
    ensures LiesAt(before + s, |before| + at, piece)
  {
    var n := |before| + at;
    assert (before + s)[n..n + |piece|] == s[at..at + |piece|];
  }

  lemma AllLieFirst(piece: string, tail: seq<string>, rest: string)
    requires AllLie(rest, tail)
    ensures AllLie(piece + "**" + rest, [piece] + tail)
  {
    var s, pieces := piece + "**" + rest, [piece] + tail;
    assert pieces[1..] == tail;
    assert s[0..|piece|] == piece;
    forall j | 0 <= j < |pieces|
      ensures LiesAt(s, Offset(pieces, j), pieces[j])
    {
      if j > 0 {
        LiesLater(piece + "**", rest, Offset(tail, j - 1), tail[j - 1]);
      }
    }
  }

  lemma OnePiece(piece: string)
    requires Unsplit(piece)
    ensures SplitsBehind(piece, [piece]) && AllLie(piece, [piece])
  {
    assert forall k, j :: 0 <= k < |piece| && 0 <= j < 1 ==> !CutBehind([piece], j, k);
  }

  lemma {:induction false} PiecesLie(current: string, rest: string)
    requires Unsplit(current)
    ensures SplitsBehind(current + rest, Pieces(current, rest)) && AllLie(current + rest, Pieces(current, rest))
    decreases |rest|
  {
    if rest == "" {
      assert current + rest == current;
      if current != "" {
        OnePiece(current);
      }
    } else {
      Regroup(current, rest);
      if State(current) == 1 && rest[0] == '*' {
        var piece := StarStar(current);
        UnsplitPrefix(current, |current| - 1);
        PiecesLie("", rest[1..]);
        assert "" + rest[1..] == rest[1..];
        SplitsBehindFirst(piece, Pieces("", rest[1..]), rest[1..]);
        AllLieFirst(piece, Pieces("", rest[1..]), rest[1..]);
      } else {
        UnsplitNext(current, rest[0]);
        PiecesLie(current + [rest[0]], rest[1..]);
      }
    }
  }

  /** The pieces are what lies between the cuts of the text. */
  lemma SplitCutsExactly(s: string)
    ensures CutsExactly(s, Split(s))
  {
    PiecesLie("", s);
    assert "" + s == s;
    forall k | 0 <= k < |s|
      ensures CutAt(s, k) <==> CutBehindSome(Split(s), k)
    {
      SplitsAtExactly(s, k);
    }
  }

  // ------------------------------------------------------------------ the code

  type Regex = string -> bool

  lemma ScanOne(regexes: string, s: nat, i: nat)
    requires s <= i < |regexes| && Unsplit(regexes[s..i])
    ensures State(regexes[s..i + 1]) == Step(State(regexes[s..i]), regexes[i])
    ensures if State(regexes[s..i]) == 1 && regexes[i] == '*' then
              && s < i
              && Pieces(regexes[s..i], regexes[i..]) == [regexes[s..i - 1]] + Pieces("", regexes[i + 1..])
            else
              && Unsplit(regexes[s..i + 1])
              && Pieces(regexes[s..i], regexes[i..]) == Pieces(regexes[s..i + 1], regexes[i + 1..])
  {
    var current, c := regexes[s..i], regexes[i];
    assert regexes[s..i + 1] == current + [c] && regexes[i..][1..] == regexes[i + 1..];
    UnsplitNext(current, c);
    if State(current) == 1 {
      StateOne(current);
      assert regexes[s..i - 1] == current[..|current| - 1];
    }
  }

  /** The scan has got to i, and to the text since s; the pieces before are cut. */
  ghost predicate Scanned(regexes: string, s: nat, i: nat, m: int, pieces: seq<string>)
    requires s <= i <= |regexes|
  {
    && m == State(regexes[s..i]) && Unsplit(regexes[s..i])
    && Split(regexes) == pieces + Pieces(regexes[s..i], regexes[i..])
  }

  lemma ScanStarts(regexes: string)
    ensures Scanned(regexes, 0, 0, 0, [])
  {
    assert regexes[0..] == regexes && regexes[0..0] == "";
  }

  lemma ScanNext(regexes: string, s: nat, i: nat, m: int, pieces: seq<string>)
    requires s <= i < |regexes| && Scanned(regexes, s, i, m, pieces)
    ensures if regexes[i] == '\\' then Scanned(regexes, s, i + 1, -1, pieces)
            else if m == 0 && regexes[i] == '*' then Scanned(regexes, s, i + 1, 1, pieces)
            else if m == 1 && regexes[i] == '*' then
              && s < i && regexes[s..i - 1] in Split(regexes)
              && Scanned(regexes, i + 1, i + 1, 0, pieces + [regexes[s..i - 1]])
            else Scanned(regexes, s, i + 1, 0, pieces)
  {
    ScanOne(regexes, s, i);
    assert regexes[i + 1..i + 1] == "";
  }

  /** Where the scan is after i characters: the start of the current piece, the
      state, and the pieces before. */
  ghost function Scan(regexes: string, i: nat): (r: (nat, int, seq<string>))
    requires i <= |regexes|
    ensures r.0 <= i && (r.1 == 1 ==> r.0 < i)
  {
    if i == 0 then (0, 0, [])
    else
      var (s, m, pieces) := Scan(regexes, i - 1);
      var c := regexes[i - 1];
      if c == '\\' then (s, -1, pieces)
      else if m == 0 && c == '*' then (s, 1, pieces)
      else if m == 1 && c == '*' then (i, 0, pieces + [regexes[s..i - 2]])
      else (s, 0, pieces)
  }

  lemma {:induction false} ScanIsScanned(regexes: string, i: nat)
    requires i <= |regexes|
    ensures var (s, m, pieces) := Scan(regexes, i); Scanned(regexes, s, i, m, pieces)
  {
    if i == 0 {
      ScanStarts(regexes);
    } else {
      ScanIsScanned(regexes, i - 1);
      var (s, m, pieces) := Scan(regexes, i - 1);
      ScanNext(regexes, s, i - 1, m, pieces);
    }
  }

  lemma ScanCuts(regexes: string, i: nat)
    requires i < |regexes| && Scan(regexes, i).1 == 1 && regexes[i] == '*'
    ensures regexes[Scan(regexes, i).0..i - 1] in Split(regexes)
  {
    ScanIsScanned(regexes, i);
    var (s, m, pieces) := Scan(regexes, i);
    ScanNext(regexes, s, i, m, pieces);
  }

  lemma ScanEnds(regexes: string)
    ensures var (s, _, pieces) := Scan(regexes, |regexes|);
            Split(regexes) == if s < |regexes| then pieces + [regexes[s..]] else pieces
  {
    ScanIsScanned(regexes, |regexes|);
    var (s, m, pieces) := Scan(regexes, |regexes|);
    assert regexes[|regexes|..] == "" && regexes[s..|regexes|] == regexes[s..];
  }

  lemma CompiledNext(
      pieces: seq<string>, regexes: seq<Regex>, compile: string -> Option<Regex>, piece: string, regex: Regex)
    requires Compiled(pieces, regexes, compile) && compile(piece) == Some(regex)
    ensures Compiled(pieces + [piece], regexes + [regex], compile)
  {
  }

  lemma SomeDoesNotCompile(text: string, compile: string -> Option<Regex>, piece: string)
    requires piece in Split(text) && compile(piece).None?
    ensures !AllValid(text, compile)
  {
  }

  /** splitRegexes. `compile`: the regular expression for a piece, if valid. */
  method SplitRegexes(regexes: string, compile: string -> Option<Regex>)
    returns (result: Option<(seq<string>, seq<Regex>)>)
    ensures CutsExactly(regexes, Split(regexes))
    ensures result.None? <==> !AllValid(regexes, compile)
    ensures result.Some? ==> result.value.0 == Split(regexes) && Compiled(result.value.0, result.value.1, compile)
  {
    var regexStrings: seq<string> := [];
    var compiledRegexes: seq<Regex> := [];
    var m := 0;
    var s := 0;
    for i := 0 to |regexes|
      invariant (s, m, regexStrings) == Scan(regexes, i)
      invariant Compiled(regexStrings, compiledRegexes, compile)
    {
      if regexes[i] == '\\' {
        m := -1;
      } else if m == 0 && regexes[i] == '*' {
        m := m + 1;
      } else if m == 1 && regexes[i] == '*' {
        var r := regexes[s..i - 1];
        var regex := compile(r);
        if regex.None? {
          ScanCuts(regexes, i);
          SomeDoesNotCompile(regexes, compile, r);
          SplitCutsExactly(regexes);
          return None;
        }
        CompiledNext(regexStrings, compiledRegexes, compile, r, regex.value);
        regexStrings := regexStrings + [r];
        compiledRegexes := compiledRegexes + [regex.value];
        s := i + 1;
        m := 0;
      } else {
        m := 0;
      }
    }
    ScanEnds(regexes);
    SplitCutsExactly(regexes);
    if s < |regexes| {
      var r := regexes[s..];
      var regex := compile(r);
      if regex.None? {
        SomeDoesNotCompile(regexes, compile, r);
        return None;
      }
      CompiledNext(regexStrings, compiledRegexes, compile, r, regex.value);
      regexStrings := regexStrings + [r];
      compiledRegexes := compiledRegexes + [regex.value];
    }
    AllCompiled(regexes, regexStrings, compiledRegexes, compile);
    return Some((regexStrings, compiledRegexes));
  }

  ghost predicate Compiled(pieces: seq<string>, regexes: seq<Regex>, compile: string -> Option<Regex>) {
    && |regexes| == |pieces|
    && forall k :: 0 <= k < |pieces| ==> compile(pieces[k]) == Some(regexes[k])
  }

  datatype Filter = Filter(
    includeRegexes: seq<string>, compiledIncludeRegexes: seq<Regex>,
    excludeRegexes: seq<string>, compiledExcludeRegexes: seq<Regex>)

  /** A directory also matches with a slash behind its path. */
  predicate Matches(r: Regex, path: string, isDir: bool) {
    r(path) || (isDir && r(path + "/"))
  }

  /** Some piece of a filter text matches. */
  predicate SomeMatches(text: string, compile: string -> Option<Regex>, path: string, isDir: bool) {
    exists r :: r in Split(text) && compile(r).Some? && Matches(compile(r).value, path, isDir)
  }

  /** regexPathFilter.Include: exclusion wins over inclusion. */
  method Include(f: Filter, path: string, isDir: bool) returns (included: bool)
    ensures included <==>
            && (forall k :: 0 <= k < |f.compiledExcludeRegexes| ==> !Matches(f.compiledExcludeRegexes[k], path, isDir))
            && (f.compiledIncludeRegexes == []
                || exists k :: 0 <= k < |f.compiledIncludeRegexes| && Matches(f.compiledIncludeRegexes[k], path, isDir))
  {
    for i := 0 to |f.compiledExcludeRegexes|
      invariant forall k :: 0 <= k < i ==> !Matches(f.compiledExcludeRegexes[k], path, isDir)
    {
      var r := f.compiledExcludeRegexes[i];
      if r(path) {
        return false;
      }
      if isDir {
        if r(path + "/") {
          return false;
        }
      }
    }
    if |f.compiledIncludeRegexes| == 0 {
      return true;
    }
    for i := 0 to |f.compiledIncludeRegexes|
      invariant forall k :: 0 <= k < i ==> !Matches(f.compiledIncludeRegexes[k], path, isDir)
    {
      var r := f.compiledIncludeRegexes[i];
      if r(path) {
        return true;
      }
      if isDir {
        if r(path + "/") {
          return true;
        }
      }
    }
    return false;
  }

  /** MakeRegexPathFilter: an error, no filter (for two empty texts), or a
      filter made from both texts. */
  datatype Made = Invalid | NoFilter | Made(filter: Filter)

  predicate AllValid(text: string, compile: string -> Option<Regex>) {
    forall r :: r in Split(text) ==> compile(r).Some?
  }

  method MakeRegexPathFilter(includeText: string, excludeText: string, compile: string -> Option<Regex>)
    returns (made: Made)
    ensures made.Invalid? <==> !AllValid(includeText, compile) || !AllValid(excludeText, compile)
    ensures made.NoFilter? <==> includeText == "" && excludeText == ""
    ensures made.Made? ==>
              && made.filter.includeRegexes == Split(includeText) && made.filter.excludeRegexes == Split(excludeText)
              && Compiled(made.filter.includeRegexes, made.filter.compiledIncludeRegexes, compile)
              && Compiled(made.filter.excludeRegexes, made.filter.compiledExcludeRegexes, compile)
  {
    var filter := Filter([], [], [], []);
    RejoinPieces("", includeText);
    RejoinPieces("", excludeText);
    if includeText != "" {
      var split := SplitRegexes(includeText, compile);
      if split.None? {
        return Invalid;
      }
      filter := filter.(includeRegexes := split.value.0, compiledIncludeRegexes := split.value.1);
    }
    AllCompiled(includeText, filter.includeRegexes, filter.compiledIncludeRegexes, compile);
    if excludeText != "" {
      var split := SplitRegexes(excludeText, compile);
      if split.None? {
        return Invalid;
      }
      filter := filter.(excludeRegexes := split.value.0, compiledExcludeRegexes := split.value.1);
    }
    AllCompiled(excludeText, filter.excludeRegexes, filter.compiledExcludeRegexes, compile);
    if |filter.compiledIncludeRegexes| > 0 || |filter.compiledExcludeRegexes| > 0 {
      return Made(filter);
    }
    return NoFilter;
  }

  lemma AllCompiled(text: string, pieces: seq<string>, regexes: seq<Regex>, compile: string -> Option<Regex>)
    requires pieces == Split(text) && Compiled(pieces, regexes, compile)
    ensures AllValid(text, compile)
  {}

  /** What a filter made from two texts lets through, in terms of the texts. */
  method IncludedByTexts(
      includeText: string, excludeText: string, compile: string -> Option<Regex>, path: string, isDir: bool)
    returns (included: bool)
    requires AllValid(includeText, compile) && AllValid(excludeText, compile)
    ensures included <==>
            && !SomeMatches(excludeText, compile, path, isDir)
            && (includeText == "" || SomeMatches(includeText, compile, path, isDir))
  {
    RejoinPieces("", includeText);
    RejoinPieces("", excludeText);
    var made := MakeRegexPathFilter(includeText, excludeText, compile);
    if made.NoFilter? {
      return true;
    }
    var f := made.filter;
    MatchesByPiece(excludeText, f.excludeRegexes, f.compiledExcludeRegexes, compile, path, isDir);
    MatchesByPiece(includeText, f.includeRegexes, f.compiledIncludeRegexes, compile, path, isDir);
    included := Include(f, path, isDir);
  }

  lemma MatchesByPiece(
      text: string, pieces: seq<string>, regexes: seq<Regex>, compile: string -> Option<Regex>, path: string,
      isDir: bool)
    requires pieces == Split(text) && Compiled(pieces, regexes, compile)
    ensures SomeMatches(text, compile, path, isDir)
            <==> exists k :: 0 <= k < |regexes| && Matches(regexes[k], path, isDir)
  {
    if SomeMatches(text, compile, path, isDir) {
      var r :| r in pieces && compile(r).Some? && Matches(compile(r).value, path, isDir);
      var k :| 0 <= k < |pieces| && pieces[k] == r;
      assert Matches(regexes[k], path, isDir);
    }
    if k :| 0 <= k < |regexes| && Matches(regexes[k], path, isDir) {
      assert pieces[k] in pieces;
    }
  }
}
