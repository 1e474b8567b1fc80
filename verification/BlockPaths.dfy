/** Where a block is stored, and how object keys are normalised before they are
    compared with that path. */
module BlockPaths {
  import opened StoreIndexes

  // ------------------------------------------------------- hexadecimal digits

  const DIGITS: string := "0123456789abcdef"

  function Hex(h: nat, width: nat): (s: string)
    ensures |s| == width && forall c :: c in s ==> c in DIGITS
  {
    if width == 0 then "" else Hex(h / 16, width - 1) + [DIGITS[h % 16]]
  }

  function DigitValue(c: char): nat {
    if '0' <= c <= '9' then c as int - '0' as int
    else if 'a' <= c <= 'f' then c as int - 'a' as int + 10
    else 0
  }

  function Unhex(s: string): nat {
    if s == "" then 0 else 16 * Unhex(s[..|s| - 1]) + DigitValue(s[|s| - 1])
  }

  function Power16(n: nat): nat {
    if n == 0 then 1 else 16 * Power16(n - 1)
  }

  lemma {:induction false} UnhexHex(h: nat, width: nat)
    requires h < Power16(width)
    ensures Unhex(Hex(h, width)) == h
  {
    if width > 0 {
      var s := Hex(h, width);
      assert s[..width - 1] == Hex(h / 16, width - 1);
      UnhexHex(h / 16, width - 1);
      assert DigitValue(DIGITS[h % 16]) == h % 16;
    }
  }

  lemma DivideTwice(h: nat, m: nat)
    requires m >= 1
    ensures (h / 16) / m == h / (16 * m)
  {
    var q, r := (h / 16) / m, (h / 16) % m;
    assert h / 16 == m * q + r;
    assert h == 16 * (m * q + r) + h % 16;
    assert 16 * (m * q) == (16 * m) * q;
    Quotient(h, 16 * m, q, 16 * r + h % 16);
  }

  lemma ProductAtLeast(k: nat, m: nat)
    requires k >= 1
    ensures k * m >= m
  {
  }

  lemma Quotient(h: nat, m: nat, q: nat, r: nat)
    requires h == m * q + r && r < m
    ensures h / m == q
  {
    var d := h / m;
    assert (d - q) * m == r - h % m;
    if d < q {
      ProductAtLeast(q - d, m);
    } else if d > q {
      ProductAtLeast(d - q, m);
    }
  }

  function Shifted(h: nat, k: nat): nat {
    if k == 0 then h else Shifted(h / 16, k - 1)
  }

  lemma {:induction false} ShiftedDivides(h: nat, k: nat)
    ensures Power16(k) >= 1 && Shifted(h, k) == h / Power16(k)
  {
    if k > 0 {
      ShiftedDivides(h / 16, k - 1);
      DivideTwice(h, Power16(k - 1));
    }
  }

  lemma {:induction false} HexShifted(h: nat, width: nat, k: nat)
    requires k < width
    ensures Hex(h, width)[width - 1 - k] == DIGITS[Shifted(h, k) % 16]
  {
    if k > 0 {
      HexShifted(h / 16, width - 1, k - 1);
    }
  }

  lemma HexDigit(h: nat, width: nat, k: nat)
    requires k < width
    ensures Power16(k) >= 1 && Hex(h, width)[width - 1 - k] == DIGITS[h / Power16(k) % 16]
  {
    ShiftedDivides(h, k);
    HexShifted(h, width, k);
  }

  // -------------------------------------------------------------- block paths

  function FileName(h: BlockHash): string {
    "0x" + Hex(h, 16) + ".lsb"
  }

  /** getBlockPath below the base path "chunks". */
  function BlockPath(h: BlockHash): string {
    "chunks/" + FileName(h)[2..6] + "/" + FileName(h)
  }

  lemma {:induction false} PowerIsPositive(k: nat)
    ensures Power16(k) >= 1
  {
    if k > 0 {
      PowerIsPositive(k - 1);
    }
  }

  /** The digit of h with weight 16^k. */
  function Digit(h: BlockHash, k: nat): char {
    PowerIsPositive(k);
    DIGITS[h / Power16(k) % 16]
  }

  lemma BlockPathParts(h: BlockHash)
    ensures var b := BlockPath(h);
            && |b| == 34 && b[..7] == "chunks/" && b[7..11] == b[14..18] && b[11..14] == "/0x"
            && b[14..30] == Hex(h, 16) && b[30..] == ".lsb"
  {
    var b, digits := BlockPath(h), Hex(h, 16);
    assert digits[..4] == FileName(h)[2..6];
    assert b == "chunks/" + digits[..4] + "/" + ("0x" + digits + ".lsb");
    assert b[14..18] == b[14..30][..4];
  }

  lemma SameParts(p: string, b: string)
    requires |p| == |b| == 34 && p[..7] == b[..7] && p[11..14] == b[11..14] && p[30..] == b[30..]
    requires p[14..30] == b[14..30] && p[7..11] == p[14..18] && b[7..11] == b[14..18]
    ensures p == b
  {
    assert p[14..18] == p[14..30][..4] && b[14..18] == b[14..30][..4];
    assert p == p[..7] + p[7..11] + p[11..14] + p[14..30] + p[30..];
    assert b == b[..7] + b[7..11] + b[11..14] + b[14..30] + b[30..];
  }

  /** The characters are the sixteen digits of h, most significant first. */
  predicate Digits(s: string, h: BlockHash) {
    |s| == 16 && forall k :: 0 <= k < 16 ==> s[15 - k] == Digit(h, k)
  }

  lemma DigitsExactly(s: string, h: BlockHash)
    ensures Digits(s, h) <==> s == Hex(h, 16)
  {
    var digits := Hex(h, 16);
    forall k | 0 <= k < 16
      ensures digits[15 - k] == Digit(h, k)
    {
      HexDigit(h, 16, k);
    }
    if Digits(s, h) {
      forall n | 0 <= n < 16
        ensures s[n] == digits[n]
      {
        assert s[15 - (15 - n)] == Digit(h, 15 - n) && digits[15 - (15 - n)] == Digit(h, 15 - n);
      }
    }
  }

  /** A block's path is chunks/dddd/0xdddddddddddddddd.lsb with the sixteen
      hexadecimal digits of its hash, most significant first, and the first four
      of them as its directory. */
  lemma BlockPathExactly(h: BlockHash, p: string)
    ensures p == BlockPath(h) <==>
            && |p| == 34 && p[..7] == "chunks/" && p[11..14] == "/0x" && p[30..] == ".lsb"
            && Digits(p[14..30], h) && p[7..11] == p[14..18]
  {
    BlockPathParts(h);
    DigitsExactly(BlockPath(h)[14..30], h);
    if |p| == 34 && p[..7] == "chunks/" && p[11..14] == "/0x" && p[30..] == ".lsb"
       && Digits(p[14..30], h) && p[7..11] == p[14..18] {
      DigitsExactly(p[14..30], h);
      SameParts(p, BlockPath(h));
    }
  }

  /** No two 64-bit hashes share a path. */
  lemma BlockPathIsInjective(g: BlockHash, h: BlockHash)
    requires BlockPath(g) == BlockPath(h)
    ensures g == h
  {
    assert BlockPath(g)[14..30] == Hex(g, 16);
    assert BlockPath(h)[14..30] == Hex(h, 16);
    assert Power16(4) == 0x1_0000;
    assert Power16(8) == 0x1_0000_0000;
    assert Power16(12) == 0x1_0000_0000_0000;
    assert Power16(16) == HASH_LIMIT;
    UnhexHex(g, 16);
    UnhexHex(h, 16);
  }

  // ------------------------------------------------------------ normalisation

  /** strings.Replace for one character. */
  function ReplaceChar(s: string, from: char, to: char): (r: string)
    ensures |r| == |s|
    ensures forall k :: 0 <= k < |s| ==> r[k] == if s[k] == from then to else s[k]
  {
    seq(|s|, k requires 0 <= k < |s| => if s[k] == from then to else s[k])
  }

  /** strings.Replace of a doubled character by a single one: from the left,
      without looking at its own output again. */
  function Undouble(s: string, c: char): string {
    if |s| < 2 then s
    else if s[0] == c && s[1] == c then [c] + Undouble(s[2..], c)
    else [s[0]] + Undouble(s[1..], c)
  }

  const UNC_PREFIX: string := "\\\\?\\"
  const NETWORK_PREFIX: string := "\\"

  function Normalize(path: string): string {
    if UNC_PREFIX <= path then
      UNC_PREFIX + Undouble(ReplaceChar(path, '/', '\\')[|UNC_PREFIX|..], '\\')
    else if NETWORK_PREFIX <= path then
      NETWORK_PREFIX + Undouble(ReplaceChar(path, '/', '\\')[|NETWORK_PREFIX|..], '\\')
    else
      Undouble(ReplaceChar(path, '\\', '/'), '/')
  }

  predicate Doubled(s: string, c: char) {
    exists k :: 0 <= k && k + 1 < |s| && s[k] == c && s[k + 1] == c
  }

  lemma {:induction false} UndoubleKeeps(s: string, c: char)
    ensures !Doubled(s, c) ==> Undouble(s, c) == s
    ensures Doubled(s, c) ==> |Undouble(s, c)| < |s|
    ensures |Undouble(s, c)| <= |s|
  {
    if |s| >= 2 {
      if s[0] == c && s[1] == c {
        UndoubleKeeps(s[2..], c);
        assert Doubled(s, c);
      } else {
        UndoubleKeeps(s[1..], c);
        assert s == [s[0]] + s[1..];
        if Doubled(s, c) {
          var k :| 0 <= k && k + 1 < |s| && s[k] == c && s[k + 1] == c;
          assert s[1..][k - 1] == c && s[1..][k] == c;
        }
        if Doubled(s[1..], c) {
          var k :| 0 <= k && k + 1 < |s[1..]| && s[1..][k] == c && s[1..][k + 1] == c;
          assert s[k + 1] == c && s[k + 1 + 1] == c;
        }
      }
    }
  }

  /** No separator of the other kind, and none doubled (behind the prefix, if
      there is one). */
  predicate IsNormal(path: string) {
    if UNC_PREFIX <= path then '/' !in path && !Doubled(path[|UNC_PREFIX|..], '\\')
    else if NETWORK_PREFIX <= path then '/' !in path && !Doubled(path[|NETWORK_PREFIX|..], '\\')
    else '\\' !in path && !Doubled(path, '/')
  }

  /** Behind a prefix without the replaced character. */
  lemma PrefixedIsNormalExactly(prefix: string, path: string, from: char, to: char)
    requires prefix <= path && from !in prefix && from != to
    ensures prefix + Undouble(ReplaceChar(path, from, to)[|prefix|..], to) == path
            <==> from !in path && !Doubled(path[|prefix|..], to)
  {
    var replaced, rest := ReplaceChar(path, from, to)[|prefix|..], path[|prefix|..];
    assert path == prefix + rest;
    UndoubleKeeps(replaced, to);
    if from !in path {
      assert replaced == rest;
    } else {
      var k :| 0 <= k < |path| && path[k] == from;
      assert replaced[k - |prefix|] != rest[k - |prefix|];
    }
    assert prefix + Undouble(replaced, to) == path <==> Undouble(replaced, to) == rest by {
      assert (prefix + Undouble(replaced, to))[|prefix|..] == Undouble(replaced, to);
    }
  }

  /** Normalisation leaves a path alone exactly if it is normal. */
  lemma NormalizeKeepsExactly(path: string)
    ensures Normalize(path) == path <==> IsNormal(path)
  {
    if UNC_PREFIX <= path {
      PrefixedIsNormalExactly(UNC_PREFIX, path, '/', '\\');
    } else if NETWORK_PREFIX <= path {
      PrefixedIsNormalExactly(NETWORK_PREFIX, path, '/', '\\');
    } else {
      PrefixedIsNormalExactly("", path, '\\', '/');
      var replaced := ReplaceChar(path, '\\', '/');
      assert replaced[0..] == replaced && path[0..] == path;
      assert "" + Undouble(replaced, '/') == Undouble(replaced, '/');
    }
  }

  // ------------------------------------------- what becomes of other paths

  function PrefixOf(path: string): string {
    if UNC_PREFIX <= path then UNC_PREFIX else if NETWORK_PREFIX <= path then NETWORK_PREFIX else ""
  }

  predicate IsSeparator(c: char) {
    c == '/' || c == '\\'
  }

  function Repeat(c: char, n: nat): string {
    seq(n, _ => c)
  }

  lemma ReplaceConcat(a: string, b: string, from: char, to: char)
    ensures ReplaceChar(a + b, from, to) == ReplaceChar(a, from, to) + ReplaceChar(b, from, to)
  {
  }

  lemma UndoubleOther(s: string, c: char)
    requires s != "" && s[0] != c
    ensures Undouble(s, c) == [s[0]] + Undouble(s[1..], c)
  {
    if |s| == 1 {
      assert s == [s[0]] && s[1..] == "";
    }
  }

  lemma {:induction false} UndoubleWord(word: string, rest: string, c: char)
    requires c !in word
    ensures Undouble(word + rest, c) == word + Undouble(rest, c)
  {
    if word == "" {
      assert word + rest == rest;
    } else {
      var first, more := word[0], word[1..];
      assert word == [first] + more && c !in more;
      assert (word + rest)[1..] == more + rest;
      UndoubleOther(word + rest, c);
      UndoubleWord(more, rest, c);
      assert [first] + (more + Undouble(rest, c)) == word + Undouble(rest, c);
    }
  }

  lemma UndoubleOne(rest: string, c: char)
    requires rest == "" || rest[0] != c
    ensures Undouble([c] + rest, c) == [c] + Undouble(rest, c)
  {
    assert ([c] + rest)[1..] == rest;
  }

  lemma UndoubleTwo(rest: string, c: char)
    ensures Undouble([c, c] + rest, c) == [c] + Undouble(rest, c)
  {
    assert ([c, c] + rest)[2..] == rest;
  }

  lemma RepeatFrom(first: string, n: nat, rest: string, c: char)
    requires forall x :: x in first ==> x == c
    ensures Repeat(c, |first| + n) + rest == first + (Repeat(c, n) + rest)
  {
    assert forall k :: 0 <= k < |first| ==> first[k] in first;
    assert Repeat(c, |first| + n) == first + Repeat(c, n);
  }

  lemma {:induction false} UndoubleRun(n: nat, rest: string, c: char)
    requires rest == "" || rest[0] != c
    ensures Undouble(Repeat(c, n) + rest, c) == Repeat(c, (n + 1) / 2) + Undouble(rest, c)
  {
    if n == 0 {
      assert Repeat(c, n) + rest == rest;
    } else if n == 1 {
      assert Repeat(c, 1) == [c];
      UndoubleOne(rest, c);
    } else {
      UndoubleRun(n - 2, rest, c);
      UndoubleTwo(Repeat(c, n - 2) + rest, c);
      RepeatFrom([c, c], n - 2, rest, c);
      RepeatFrom([c], (n - 1) / 2, Undouble(rest, c), c);
    }
  }

  lemma ReplaceNothing(word: string, from: char, to: char)
    requires from !in word
    ensures ReplaceChar(word, from, to) == word
  {
  }

  lemma ReplaceAll(run: string, from: char, to: char)
    requires forall c :: c in run ==> c == from || c == to
    ensures ReplaceChar(run, from, to) == Repeat(to, |run|)
  {
    assert forall k :: 0 <= k < |run| ==> run[k] in run;
  }

  /** One kind of separator, and doubled ones single. */
  function Collapse(s: string, from: char, to: char): string {
    Undouble(ReplaceChar(s, from, to), to)
  }

  lemma ReplaceRun(word: string, run: string, rest: string, from: char, to: char)
    requires from !in word
    requires forall c :: c in run ==> c == from || c == to
    ensures ReplaceChar(word + run + rest, from, to) == word + (Repeat(to, |run|) + ReplaceChar(rest, from, to))
  {
    ReplaceConcat(word + run, rest, from, to);
    ReplaceConcat(word, run, from, to);
    ReplaceNothing(word, from, to);
    ReplaceAll(run, from, to);
  }

  lemma UndoubleWordAndRun(word: string, n: nat, rest: string, c: char)
    requires c !in word && (rest == "" || rest[0] != c)
    ensures Undouble(word + (Repeat(c, n) + rest), c) == word + Repeat(c, (n + 1) / 2) + Undouble(rest, c)
  {
    UndoubleWord(word, Repeat(c, n) + rest, c);
    UndoubleRun(n, rest, c);
    assert word + (Repeat(c, (n + 1) / 2) + Undouble(rest, c)) == word + Repeat(c, (n + 1) / 2) + Undouble(rest, c);
  }

  lemma CollapseRun(word: string, run: string, rest: string, from: char, to: char)
    requires from != to && from !in word && to !in word
    requires forall c :: c in run ==> c == from || c == to
    requires rest == "" || (rest[0] != from && rest[0] != to)
    ensures Collapse(word + run + rest, from, to) == word + Repeat(to, (|run| + 1) / 2) + Collapse(rest, from, to)
  {
    ReplaceRun(word, run, rest, from, to);
    UndoubleWordAndRun(word, |run|, ReplaceChar(rest, from, to), to);
  }

  function Separator(prefix: string): char {
    if prefix == "" then '/' else '\\'
  }

  function OtherSeparator(prefix: string): char {
    if prefix == "" then '\\' else '/'
  }

  function NormalizedBehind(pre: string, behind: string): string {
    pre + Collapse(behind, OtherSeparator(pre), Separator(pre))
  }

  lemma NormalizeBehindPrefix(path: string, pre: string, behind: string)
    requires pre == PrefixOf(path) && path == pre + behind
    ensures Normalize(path) == NormalizedBehind(pre, behind)
  {
    var from, to := OtherSeparator(pre), Separator(pre);
    ReplaceConcat(pre, behind, from, to);
    assert ReplaceChar(path, from, to)[|pre|..] == ReplaceChar(behind, from, to);
    assert path[0..] == path;
  }

  lemma NormalizedRun(pre: string, word: string, run: string, rest: string)
    requires forall c :: c in word ==> !IsSeparator(c)
    requires forall c :: c in run ==> IsSeparator(c)
    requires rest == "" || !IsSeparator(rest[0])
    ensures pre <= NormalizedBehind(pre, rest)
    ensures NormalizedBehind(pre, word + run + rest) ==
            pre + word + Repeat(Separator(pre), (|run| + 1) / 2) + NormalizedBehind(pre, rest)[|pre|..]
  {
    CollapseRun(word, run, rest, OtherSeparator(pre), Separator(pre));
  }

  lemma SamePrefix(path: string, rest: string)
    requires rest == "" || !IsSeparator(rest[0])
    ensures PrefixOf(PrefixOf(path) + rest) == PrefixOf(path)
  {
    assert "" + rest == rest;
    assert rest != "" ==> (NETWORK_PREFIX + rest)[1] == rest[0];
  }

  /** A prefix of a path stays. Behind it a word, with no separator in it, stays;
      a run of separators of either kind becomes a run half as long, rounded up,
      of the kind that goes with the prefix; and what follows is normalised in
      the same way. */
  lemma NormalizeHalvesRuns(path: string, word: string, run: string, rest: string)
    requires path == PrefixOf(path) + word + run + rest
    requires forall c :: c in word ==> !IsSeparator(c)
    requires forall c :: c in run ==> IsSeparator(c)
    requires rest == "" || !IsSeparator(rest[0])
    ensures var pre := PrefixOf(path);
            && pre <= Normalize(pre + rest)
            && Normalize(path) ==
               pre + word + Repeat(if pre == "" then '/' else '\\', (|run| + 1) / 2) + Normalize(pre + rest)[|pre|..]
  {
    var pre := PrefixOf(path);
    SamePrefix(path, rest);
    assert path == pre + (word + run + rest);
    NormalizeBehindPrefix(path, pre, word + run + rest);
    NormalizeBehindPrefix(pre + rest, pre, rest);
    NormalizedRun(pre, word, run, rest);
  }

  lemma SlashesApart(p: string)
    requires |p| > 0 && p[0] != '/'
    requires forall k :: 0 <= k < |p| ==> p[k] != '\\' && (p[k] == '/' ==> k == 6 || k == 11)
    ensures IsNormal(p)
  {
    assert p[0] != '\\';
  }

  lemma BlockPathSlashes(h: BlockHash)
    ensures var p := BlockPath(h);
            && |p| > 0 && p[0] != '/'
            && forall k :: 0 <= k < |p| ==> p[k] != '\\' && (p[k] == '/' ==> k == 6 || k == 11)
  {
    var p, digits := BlockPath(h), Hex(h, 16);
    assert digits[0..4] == FileName(h)[2..6];
    assert p == "chunks/" + digits[0..4] + "/0x" + digits + ".lsb";
    assert forall c :: c in DIGITS ==> c != '/' && c != '\\';
    assert forall k :: 0 <= k < 16 ==> digits[k] in digits;
  }

  /** Normalisation leaves a block's own path alone. */
  lemma BlockPathIsNormal(h: BlockHash)
    ensures Normalize(BlockPath(h)) == BlockPath(h)
  {
    BlockPathSlashes(h);
    SlashesApart(BlockPath(h));
    NormalizeKeepsExactly(BlockPath(h));
  }
}
