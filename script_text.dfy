/**
 * The older preprocessing step of the top-level script. After the same two
 * comment substitutions as the compiler's preprocessor, four substitutions
 * `(\s*)b(\s*)` → `' b '` pad each of `[ ] ( )` with single spaces (in the
 * order a dictionary iterates its keys), every whitespace run becomes one
 * space, the ends are stripped and the text is split on single spaces.
 * Each substitution is modelled by the left-to-right scan the regex engine
 * performs for it.
 */
module ScriptText {
  import opened Text
  import Preprocessor

  /** The characters the padding rules surround with spaces; `{` and `}` are not among them. */
  const PAD_KEYS: seq<char> := ['[', ']', '(', ')']

  /** A dictionary's iteration order of the four padding rules. */
  predicate IsOrder(order: seq<char>) {
    |order| == 4 && forall c :: c in PAD_KEYS <==> c in order
  }

  /** Length of the whitespace run that starts `s`. */
  function SpaceLen(s: string): (n: nat)
    ensures n <= |s|
    ensures forall k :: 0 <= k < n ==> IsSpace(s[k])
    ensures n < |s| ==> !IsSpace(s[n])
  {
    if s == [] || !IsSpace(s[0]) then 0 else 1 + SpaceLen(s[1..])
  }

  /**
   * `re.sub('(\s*)b(\s*)', ' b ', s)`: at each position a whitespace run
   * followed by `b`, that run, `b` and the whitespace after it become ` b `;
   * anywhere else the scan moves on by one character.
   */
  function Pad(s: string, b: char): (r: string)
    ensures r == [] <==> s == []
    ensures r != [] ==> r[0] == ' ' || r[0] == s[0]
    ensures r != [] && !IsSpace(b) ==> r[0] != b
    decreases |s|
  {
    if s == [] then []
    else
      var n := SpaceLen(s);
      if n < |s| && s[n] == b then
        [' ', b, ' '] + Pad(AfterMatch(s), b)
      else [s[0]] + Pad(s[1..], b)
  }

  /** What follows a match of `\s*b\s*` at the front of `s`: the leading whitespace, `b` and the whitespace after it are gone. */
  function AfterMatch(s: string): (r: string)
    requires SpaceLen(s) < |s|
    ensures |r| < |s|
  {
    var rest := s[SpaceLen(s) + 1..];
    rest[SpaceLen(rest)..]
  }

  /** `Pad` at a match of the pattern: ` b ` replaces the match, and the scan resumes after it. */
  lemma PadMatch(s: string, b: char)
    requires SpaceLen(s) < |s| && s[SpaceLen(s)] == b
    ensures Pad(s, b) == [' ', b, ' '] + Pad(AfterMatch(s), b)
  {
  }

  /** `Pad` anywhere else: the first character is kept. */
  lemma PadKeep(s: string, b: char)
    requires s != [] && !(SpaceLen(s) < |s| && s[SpaceLen(s)] == b)
    ensures Pad(s, b) == [s[0]] + Pad(s[1..], b)
  {
  }

  /** The padding rules applied one after another, in the order of `keys`. */
  function PadAll(s: string, keys: seq<char>): string
    decreases |keys|
  {
    if keys == [] then s else PadAll(Pad(s, keys[0]), keys[1..])
  }

  /** `re.sub(r'\s+', ' ', s)`: every whitespace run becomes one space. */
  function Collapse(s: string): (r: string)
    ensures r == [] <==> s == []
    ensures r != [] ==> (IsSpace(r[0]) <==> IsSpace(s[0]))
    decreases |s|
  {
    if s == [] then []
    else if IsSpace(s[0]) then [' '] + Collapse(s[SpaceLen(s)..])
    else [s[0]] + Collapse(s[1..])
  }

  /** `s` without its trailing whitespace. */
  function TrimEnd(s: string): (r: string)
    ensures |r| <= |s| && r == s[..|r|]
    ensures r == [] || !IsSpace(r[|r| - 1])
    decreases |s|
  {
    if s != [] && IsSpace(s[|s| - 1]) then TrimEnd(s[..|s| - 1]) else s
  }

  /** `s.strip()`. */
  function Strip(s: string): string {
    TrimEnd(s[SpaceLen(s)..])
  }

  /** `s.split(c)`: the pieces between the occurrences of `c`, empty pieces included. */
  function SplitOn(s: string, c: char): (r: seq<string>)
    ensures |r| >= 1
    decreases |s|
  {
    if s == [] then [[]]
    else if s[0] == c then [[]] + SplitOn(s[1..], c)
    else
      var r := SplitOn(s[1..], c);
      [[s[0]] + r[0]] + r[1..]
  }

  /** The returned token list: comments removed, the four rules in `order`, whitespace collapsed, stripped and split. */
  function Tokens(src: string, order: seq<char>): seq<string> {
    SplitOn(Strip(Collapse(PadAll(Preprocessor.RemoveComments(src), order))), ' ')
  }

  // ---- the whitespace steps ----

  /** Only plain spaces, never two in a row: the shape `re.sub(r'\s+', ' ', …)` leaves. */
  predicate Canon(s: string) {
    forall k :: 0 <= k < |s| && IsSpace(s[k]) ==> s[k] == ' ' && (k + 1 < |s| ==> !IsSpace(s[k + 1]))
  }

  lemma CanonSlice(s: string, i: nat, j: nat)
    requires Canon(s) && i <= j <= |s|
    ensures Canon(s[i..j])
  {
    forall k | 0 <= k < j - i && IsSpace(s[i..j][k])
      ensures s[i..j][k] == ' ' && (k + 1 < j - i ==> !IsSpace(s[i..j][k + 1]))
    {
      assert s[i..j][k] == s[i + k];
      if k + 1 < j - i {
        assert s[i..j][k + 1] == s[i + k + 1];
      }
    }
  }

  /** Dropping a leading whitespace run does not change `split()`. */
  lemma {:induction false} SplitDropSpaces(s: string, n: nat)
    requires n <= |s| && forall k :: 0 <= k < n ==> IsSpace(s[k])
    ensures Split(s[n..]) == Split(s)
    decreases n
  {
    if n > 0 {
      assert s[1..][n - 1..] == s[n..];
      SplitDropSpaces(s[1..], n - 1);
    }
  }

  /** `split()` of a non-space character in front of `y`: a new word, or the first word grown by one. */
  lemma SplitConsWord(c: char, y: string)
    requires !IsSpace(c)
    ensures y == [] || IsSpace(y[0]) ==> Split([c] + y) == [[c]] + Split(y)
    ensures y != [] && !IsSpace(y[0]) ==> Split([c] + y) == [[c] + Split(y)[0]] + Split(y)[1..]
  {
    var s := [c] + y;
    assert s[0] == c && s[1..] == y;
    var m := WordLen(y);
    assert WordLen(s) == 1 + m;
    assert s[..1 + m] == [c] + y[..m];
    assert s[1 + m..] == y[m..];
  }

  /** Collapsing whitespace does not change `split()`. */
  lemma {:induction false} SplitCollapse(s: string)
    ensures Split(Collapse(s)) == Split(s)
    decreases |s|
  {
    if s != [] {
      if IsSpace(s[0]) {
        var n := SpaceLen(s);
        SplitCollapse(s[n..]);
        SplitSpaceCons(' ', Collapse(s[n..]));
        SplitDropSpaces(s, n);
      } else {
        SplitCollapse(s[1..]);
        SplitConsWord(s[0], Collapse(s[1..]));
        SplitConsWord(s[0], s[1..]);
        assert [s[0]] + s[1..] == s;
      }
    }
  }

  lemma {:induction false} CollapseCanon(s: string)
    ensures Canon(Collapse(s))
    decreases |s|
  {
    if s != [] {
      var r := Collapse(s);
      if IsSpace(s[0]) {
        var t := s[SpaceLen(s)..];
        CollapseCanon(t);
        assert r == [' '] + Collapse(t);
        forall k | 0 <= k < |r| && IsSpace(r[k]) ensures r[k] == ' ' && (k + 1 < |r| ==> !IsSpace(r[k + 1])) {
          if k > 0 {
            assert r[k] == Collapse(t)[k - 1];
          }
          if k + 1 < |r| {
            assert r[k + 1] == Collapse(t)[k];
          }
        }
      } else {
        CollapseCanon(s[1..]);
        assert r == [s[0]] + Collapse(s[1..]);
        forall k | 0 <= k < |r| && IsSpace(r[k]) ensures r[k] == ' ' && (k + 1 < |r| ==> !IsSpace(r[k + 1])) {
          assert r[k] == Collapse(s[1..])[k - 1];
          if k + 1 < |r| {
            assert r[k + 1] == Collapse(s[1..])[k];
          }
        }
      }
    }
  }

  /** Trailing whitespace does not change `split()`. */
  lemma {:induction false} SplitTrimEnd(s: string)
    ensures Split(TrimEnd(s)) == Split(s)
    decreases |s|
  {
    if s != [] && IsSpace(s[|s| - 1]) {
      var init := s[..|s| - 1];
      SplitTrimEnd(init);
      SplitAtSpace(init, s[|s| - 1], []);
      assert init + [s[|s| - 1]] + [] == s;
    }
  }

  /** `s.split(c)` of text without `c` is the text itself. */
  lemma {:induction false} SplitOnNone(w: string, c: char)
    requires c !in w
    ensures SplitOn(w, c) == [w]
    decreases |w|
  {
    if w != [] {
      SplitOnNone(w[1..], c);
      assert [w[0]] + w[1..] == w;
    }
  }

  lemma {:induction false} SplitOnAppend(w: string, c: char, rest: string)
    requires c !in w
    ensures SplitOn(w + [c] + rest, c) == [w] + SplitOn(rest, c)
    decreases |w|
  {
    var s := w + [c] + rest;
    if w == [] {
      assert s[0] == c && s[1..] == rest;
    } else {
      assert s[0] == w[0] && s[1..] == w[1..] + [c] + rest;
      SplitOnAppend(w[1..], c, rest);
      assert [w[0]] + w[1..] == w;
    }
  }

  /** On text with single inner spaces and no space at either end, `split(' ')` and `split()` agree. */
  lemma {:induction false} SplitOnCanon(z: string)
    requires Canon(z) && z != [] && !IsSpace(z[0]) && !IsSpace(z[|z| - 1])
    ensures SplitOn(z, ' ') == Split(z)
    decreases |z|
  {
    var n := WordLen(z);
    var w := z[..n];
    assert ' ' !in w;
    if n == |z| {
      assert w == z;
      SplitOnNone(z, ' ');
      SplitWordAppend(z, []);
      assert z + [] == z;
    } else {
      var rest := z[n + 1..];
      assert z == w + [' '] + rest;
      assert rest != [] && !IsSpace(rest[0]) && !IsSpace(rest[|rest| - 1]);
      CanonSlice(z, n + 1, |z|);
      SplitOnCanon(rest);
      SplitOnAppend(w, ' ', rest);
      SplitAtSpace(w, ' ', rest);
      SplitWordAppend(w, []);
      assert w + [] == w;
    }
  }

  /**
   * Collapsing, stripping and splitting on single spaces gives the words of
   * the text, as `split()` would, except that text with no word at all
   * gives the one empty token `''`.
   */
  lemma WhitespaceSteps(s: string)
    ensures Split(s) == [] ==> SplitOn(Strip(Collapse(s)), ' ') == [""]
    ensures Split(s) != [] ==> SplitOn(Strip(Collapse(s)), ' ') == Split(s)
  {
    var y := Collapse(s);
    SplitCollapse(s);
    CollapseCanon(s);
    StripCanon(y);
    if Strip(y) != [] {
      SplitOnCanon(Strip(y));
    }
  }

  /** Stripping canonical text keeps it canonical and keeps its words; what is left starts and ends with a word. */
  lemma StripCanon(y: string)
    requires Canon(y)
    ensures Canon(Strip(y)) && Split(Strip(y)) == Split(y)
    ensures Strip(y) == [] ==> Split(y) == []
    ensures Strip(y) != [] ==> !IsSpace(Strip(y)[0]) && !IsSpace(Strip(y)[|Strip(y)| - 1])
  {
    var n := SpaceLen(y);
    var u := y[n..];
    SplitDropSpaces(y, n);
    CanonSlice(y, n, |y|);
    var z := TrimEnd(u);
    SplitTrimEnd(u);
    CanonSlice(u, 0, |z|);
    if z != [] {
      assert z[0] == u[0];
    }
  }

  // ---- the padding rules ----

  /** If the character at `k` is `b`, it has whitespace, or an end of the text, on both sides. */
  predicate SpacedAround(s: string, k: nat, b: char)
    requires k < |s|
  {
    s[k] == b ==> (k == 0 || IsSpace(s[k - 1])) && (k + 1 == |s| || IsSpace(s[k + 1]))
  }

  /** Every `b` in `s` has whitespace, or an end of the text, on both sides. */
  predicate Spaced(s: string, b: char) {
    forall k :: 0 <= k < |s| ==> SpacedAround(s, k, b)
  }

  lemma SpacedSlice(s: string, i: nat, b: char)
    requires Spaced(s, b) && i <= |s|
    ensures Spaced(s[i..], b)
  {
    forall k | 0 <= k < |s[i..]|
      ensures SpacedAround(s[i..], k, b)
    {
      assert SpacedAround(s, i + k, b);
      assert s[i..][k] == s[i + k];
      if k > 0 {
        assert s[i..][k - 1] == s[i + k - 1];
      }
      if k + 1 < |s[i..]| {
        assert s[i..][k + 1] == s[i + k + 1];
      }
    }
  }

  lemma SpacedCons(x: char, r: string, b: char)
    requires Spaced(r, b)
    requires x == b ==> r == [] || IsSpace(r[0])
    requires r != [] && r[0] == b ==> IsSpace(x)
    ensures Spaced([x] + r, b)
  {
    var s := [x] + r;
    forall k | 0 <= k < |s|
      ensures SpacedAround(s, k, b)
    {
      if k > 0 {
        assert SpacedAround(r, k - 1, b);
        assert s[k] == r[k - 1];
        if k > 1 {
          assert s[k - 1] == r[k - 2];
        }
        if k + 1 < |s| {
          assert s[k + 1] == r[k];
        }
      }
    }
  }

  lemma SpacedPadded(c: char, r: string, b: char)
    requires Spaced(r, b) && !IsSpace(b)
    ensures Spaced([' ', c, ' '] + r, b)
  {
    SpacedCons(' ', r, b);
    SpacedCons(c, [' '] + r, b);
    assert [c] + ([' '] + r) == [c, ' '] + r;
    SpacedCons(' ', [c, ' '] + r, b);
    assert [' '] + ([c] + ([' '] + r)) == [' ', c, ' '] + r;
  }

  /** The non-whitespace text of a run of whitespace is empty. */
  lemma {:induction false} NonSpaceOfSpaces(s: string, n: nat)
    requires n <= |s| && forall k :: 0 <= k < n ==> IsSpace(s[k])
    ensures NonSpace(s) == NonSpace(s[n..])
    decreases n
  {
    if n > 0 {
      assert s[1..][n - 1..] == s[n..];
      NonSpaceOfSpaces(s[1..], n - 1);
    }
  }

  /** A padding rule changes only whitespace: the other characters stay, in order. */
  lemma {:induction false} PadNonSpace(s: string, b: char)
    requires !IsSpace(b)
    ensures NonSpace(Pad(s, b)) == NonSpace(s)
    decreases |s|
  {
    if s != [] {
      var n := SpaceLen(s);
      if n < |s| && s[n] == b {
        PadMatch(s, b);
        var rest := s[n + 1..];
        var m := SpaceLen(rest);
        assert AfterMatch(s) == rest[m..];
        PadNonSpace(rest[m..], b);
        PadMatchNonSpace(s, b, n, rest, m);
      } else {
        PadKeep(s, b);
        PadNonSpace(s[1..], b);
        NonSpaceAppend([s[0]], Pad(s[1..], b));
        NonSpaceAppend([s[0]], s[1..]);
        assert [s[0]] + s[1..] == s;
      }
    }
  }

  lemma PadMatchNonSpace(s: string, b: char, n: nat, rest: string, m: nat)
    requires !IsSpace(b) && n < |s| && s[n] == b && rest == s[n + 1..] && m <= |rest|
    requires forall k :: 0 <= k < n ==> IsSpace(s[k])
    requires forall k :: 0 <= k < m ==> IsSpace(rest[k])
    requires NonSpace(Pad(rest[m..], b)) == NonSpace(rest[m..])
    ensures NonSpace([' ', b, ' '] + Pad(rest[m..], b)) == NonSpace(s)
  {
    NonSpaceAppend([' ', b, ' '], Pad(rest[m..], b));
    assert [' ', b, ' '][1..] == [b, ' '] && [b, ' '][1..] == [' '] && [' '][1..] == [];
    assert NonSpace([' ', b, ' ']) == [b];
    NonSpaceOfSpaces(s, n);
    assert s[n..] == [b] + rest;
    NonSpaceAppend([b], rest);
    NonSpaceOfSpaces(rest, m);
  }

  /** After a padding rule, every `b` stands between whitespace. */
  lemma {:induction false} PadSpaces(s: string, b: char)
    requires !IsSpace(b)
    ensures Spaced(Pad(s, b), b)
    decreases |s|
  {
    if s != [] {
      var n := SpaceLen(s);
      if n < |s| && s[n] == b {
        PadSpaces(AfterMatch(s), b);
        PadSpacesMatch(s, b);
      } else {
        PadSpaces(s[1..], b);
        PadSpacesKeep(s, b);
      }
    }
  }

  lemma PadSpacesMatch(s: string, b: char)
    requires !IsSpace(b) && SpaceLen(s) < |s| && s[SpaceLen(s)] == b
    requires Spaced(Pad(AfterMatch(s), b), b)
    ensures Spaced(Pad(s, b), b)
  {
    PadMatch(s, b);
    SpacedPadded(b, Pad(AfterMatch(s), b), b);
  }

  lemma PadSpacesKeep(s: string, b: char)
    requires !IsSpace(b) && s != [] && !(SpaceLen(s) < |s| && s[SpaceLen(s)] == b)
    requires Spaced(Pad(s[1..], b), b)
    ensures Spaced(Pad(s, b), b)
  {
    PadKeep(s, b);
    assert s[0] != b;
    SpacedCons(s[0], Pad(s[1..], b), b);
  }

  /** A padding rule for `b` keeps every other character `c` spaced that already was. */
  lemma {:induction false} PadKeepsSpaced(s: string, b: char, c: char)
    requires !IsSpace(b) && !IsSpace(c) && b != c
    requires Spaced(s, c)
    ensures Spaced(Pad(s, b), c)
    decreases |s|
  {
    if s != [] {
      var n := SpaceLen(s);
      if n < |s| && s[n] == b {
        var rest := s[n + 1..];
        var m := SpaceLen(rest);
        assert rest[m..] == s[n + 1 + m..];
        SpacedSlice(s, n + 1 + m, c);
        PadKeepsSpaced(rest[m..], b, c);
        PadMatch(s, b);
        assert AfterMatch(s) == rest[m..];
        SpacedPadded(b, Pad(rest[m..], b), c);
      } else {
        SpacedSlice(s, 1, c);
        PadKeepsSpaced(s[1..], b, c);
        assert SpacedAround(s, 0, c);
        if |s| > 1 {
          assert s[1..][0] == s[1];
          assert SpacedAround(s, 1, c);
        }
        SpacedCons(s[0], Pad(s[1..], b), c);
      }
    }
  }

  /** A rule whose character does not occur changes nothing. */
  lemma {:induction false} PadAbsent(s: string, b: char)
    requires b !in s && !IsSpace(b)
    ensures Pad(s, b) == s
    decreases |s|
  {
    if s != [] {
      var n := SpaceLen(s);
      assert n < |s| ==> s[n] != b;
      PadAbsent(s[1..], b);
      assert [s[0]] + s[1..] == s;
    }
  }

  lemma {:induction false} PadAllSpaced(s: string, keys: seq<char>, c: char)
    requires forall k :: 0 <= k < |keys| ==> !IsSpace(keys[k])
    requires !IsSpace(c) && (c in keys || Spaced(s, c))
    ensures Spaced(PadAll(s, keys), c)
    decreases |keys|
  {
    if keys != [] {
      if keys[0] == c {
        PadSpaces(s, c);
      } else if Spaced(s, c) {
        PadKeepsSpaced(s, keys[0], c);
      } else {
        assert c in keys[1..];
      }
      assert forall k :: 0 <= k < |keys[1..]| ==> !IsSpace(keys[1..][k]);
      if Spaced(Pad(s, keys[0]), c) {
        PadAllSpaced(Pad(s, keys[0]), keys[1..], c);
      } else {
        assert c in keys[1..];
        PadAllSpaced(Pad(s, keys[0]), keys[1..], c);
      }
    }
  }

  lemma {:induction false} PadAllNonSpace(s: string, keys: seq<char>)
    requires forall k :: 0 <= k < |keys| ==> !IsSpace(keys[k])
    ensures NonSpace(PadAll(s, keys)) == NonSpace(s)
    decreases |keys|
  {
    if keys != [] {
      PadNonSpace(s, keys[0]);
      assert forall k :: 0 <= k < |keys[1..]| ==> !IsSpace(keys[1..][k]);
      PadAllNonSpace(Pad(s, keys[0]), keys[1..]);
    }
  }

  lemma {:induction false} PadAllAbsent(s: string, keys: seq<char>)
    requires forall k :: 0 <= k < |keys| ==> !IsSpace(keys[k]) && keys[k] !in s
    ensures PadAll(s, keys) == s
    decreases |keys|
  {
    if keys != [] {
      PadAbsent(s, keys[0]);
      assert forall k :: 0 <= k < |keys[1..]| ==> !IsSpace(keys[1..][k]) && keys[1..][k] !in s;
      PadAllAbsent(s, keys[1..]);
    }
  }

  lemma SpacedInWord(s: string, c: char, n: nat, k: nat)
    requires Spaced(s, c) && n <= |s| && k < n && s[k] == c
    requires forall j :: 0 <= j < n ==> !IsSpace(s[j])
    ensures k == 0 && n == 1
  {
    SpacedAt(s, c, k);
  }

  lemma SpacedAt(s: string, c: char, k: nat)
    requires Spaced(s, c) && k < |s| && s[k] == c
    ensures k == 0 || IsSpace(s[k - 1])
    ensures k + 1 == |s| || IsSpace(s[k + 1])
  {
    assert SpacedAround(s, k, c);
  }

  /** A word of text in which `c` is spaced holds `c` only as the whole word. */
  lemma {:induction false} SpacedWords(s: string, c: char)
    requires Spaced(s, c) && !IsSpace(c)
    ensures forall i :: 0 <= i < |Split(s)| && c in Split(s)[i] ==> Split(s)[i] == [c]
    decreases |s|
  {
    if s != [] {
      if IsSpace(s[0]) {
        SpacedSlice(s, 1, c);
        SpacedWords(s[1..], c);
      } else {
        var n := WordLen(s);
        var w := s[..n];
        SpacedSlice(s, n, c);
        SpacedWords(s[n..], c);
        if c in w {
          var k :| 0 <= k < n && w[k] == c;
          assert s[k] == c;
          assert forall j :: 0 <= j < n ==> !IsSpace(s[j]) by {
            forall j | 0 <= j < n ensures !IsSpace(s[j]) {
              assert w[j] == s[j];
            }
          }
          SpacedInWord(s, c, n, k);
          assert w == [c];
        }
        assert Split(s) == [w] + Split(s[n..]);
      }
    }
  }

  // ---- the whole step ----

  lemma OrderKeys(order: seq<char>)
    requires IsOrder(order)
    ensures forall k :: 0 <= k < |order| ==> !IsSpace(order[k])
  {
    forall k | 0 <= k < |order| ensures !IsSpace(order[k]) {
      assert order[k] in PAD_KEYS;
    }
  }

  /**
   * The returned tokens are the words of the padded text; whitespace runs
   * only separate them, and text with no word gives `['']`.
   */
  lemma TokensAreWords(src: string, order: seq<char>)
    ensures var p := PadAll(Preprocessor.RemoveComments(src), order);
      && (Split(p) == [] ==> Tokens(src, order) == [""])
      && (Split(p) != [] ==> Tokens(src, order) == Split(p) && AllWords(Tokens(src, order)))
  {
    WhitespaceSteps(PadAll(Preprocessor.RemoveComments(src), order));
  }

  /** Each of `[ ] ( )` comes out as a token of its own, whatever the rules' order. */
  lemma BracketsStandAlone(src: string, order: seq<char>, i: nat, c: char)
    requires IsOrder(order) && c in PAD_KEYS
    requires i < |Tokens(src, order)| && c in Tokens(src, order)[i]
    ensures Tokens(src, order)[i] == [c]
  {
    var p := PadAll(Preprocessor.RemoveComments(src), order);
    OrderKeys(order);
    PadAllSpaced(Preprocessor.RemoveComments(src), order, c);
    SpacedWords(p, c);
    TokensAreWords(src, order);
  }

  /** Padding and collapsing change only whitespace: the tokens concatenate to the comment-free text without its whitespace. */
  lemma TokensKeepText(src: string, order: seq<char>)
    requires IsOrder(order)
    ensures Text.Concat(Tokens(src, order)) == NonSpace(Preprocessor.RemoveComments(src))
  {
    var p := PadAll(Preprocessor.RemoveComments(src), order);
    OrderKeys(order);
    PadAllNonSpace(Preprocessor.RemoveComments(src), order);
    SplitConcat(p);
    TokensAreWords(src, order);
    if Split(p) == [] {
      assert Text.Concat([""]) == "";
    }
  }

  /** Text with none of `[ ] ( )` is only split: `{` and `}` stay attached to their neighbours. */
  lemma NoPadding(src: string, order: seq<char>)
    requires IsOrder(order)
    requires forall c :: c in PAD_KEYS ==> c !in Preprocessor.RemoveComments(src)
    ensures Split(Preprocessor.RemoveComments(src)) != [] ==>
      Tokens(src, order) == Split(Preprocessor.RemoveComments(src))
  {
    OrderKeys(order);
    forall k | 0 <= k < |order|
      ensures order[k] !in Preprocessor.RemoveComments(src)
    {
      assert order[k] in PAD_KEYS;
    }
    PadAllAbsent(Preprocessor.RemoveComments(src), order);
    TokensAreWords(src, order);
  }
}
