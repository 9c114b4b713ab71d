/**
 * The lexer: every bracket character is padded with spaces and the
 * result is split on whitespace.
 */
module Lexer {
  import opened Text
  import opened Constants

  /** What one source character contributes to the padded text. */
  function PadChar(c: char): string {
    if IsBracketChar(c) then [' ', c, ' '] else [c]
  }

  /** The padded text the lexer's loop builds, character by character. */
  function Padded(src: string): string {
    if src == [] then []
    else Padded(src[..|src| - 1]) + PadChar(src[|src| - 1])
  }

  /** The token list of `src`: the padded text split on whitespace. */
  function Tokens(src: string): seq<string> {
    Split(Padded(src))
  }

  predicate NoBracket(t: string) {
    forall k :: 0 <= k < |t| ==> !IsBracketChar(t[k])
  }

  /** Every bracket character is preceded and followed by whitespace (or an end of the text). */
  predicate Separated(s: string) {
    forall i :: 0 <= i < |s| && IsBracketChar(s[i]) ==>
      (0 < i ==> IsSpace(s[i - 1])) && (i + 1 < |s| ==> IsSpace(s[i + 1]))
  }

  /** Neither end of `s` is a bracket character. */
  predicate PlainEnds(s: string) {
    s == [] || (!IsBracketChar(s[0]) && !IsBracketChar(s[|s| - 1]))
  }

  /** A token in which a bracket character occurs is that bracket alone. */
  predicate BracketsAlone(ts: seq<string>) {
    forall i, k :: 0 <= i < |ts| && 0 <= k < |ts[i]| && IsBracketChar(ts[i][k]) ==> ts[i] == [ts[i][k]]
  }

  /** The lexer: pad each bracket character with spaces, then split on whitespace. */
  method Lex(src: string) returns (tokens: seq<string>)
    ensures tokens == Tokens(src)
    ensures AllWords(tokens)
    ensures BracketsAlone(tokens)
    ensures Concat(tokens) == NonSpace(src)
  {
    var lexed := "";
    for i := 0 to |src|
      invariant lexed == Padded(src[..i])
    {
      assert src[..i + 1][..i] == src[..i];
      if IsBracketChar(src[i]) {
        lexed := lexed + " " + [src[i]] + " ";
      } else {
        lexed := lexed + [src[i]];
      }
    }
    assert src[..|src|] == src;
    tokens := Split(lexed);
    TokensBracketsAlone(src);
    TokensConcat(src);
  }

  lemma {:induction false} PaddedAppend(a: string, b: string)
    ensures Padded(a + b) == Padded(a) + Padded(b)
    decreases |b|
  {
    if b == [] {
      assert a + b == a;
    } else {
      var b' := b[..|b| - 1];
      assert (a + b)[..|a + b| - 1] == a + b';
      assert (a + b)[|a + b| - 1] == b[|b| - 1];
      PaddedAppend(a, b');
    }
  }

  lemma PaddedChar(c: char)
    ensures Padded([c]) == PadChar(c)
  {
    assert [c][..0] == [];
  }

  lemma {:induction false} PaddedPlain(w: string)
    requires NoBracket(w)
    ensures Padded(w) == w
    decreases |w|
  {
    if w != [] {
      var w' := w[..|w| - 1];
      assert NoBracket(w') by {
        forall k | 0 <= k < |w'| ensures !IsBracketChar(w'[k]) {
          assert w'[k] == w[k];
        }
      }
      PaddedPlain(w');
      assert w == w' + [w[|w| - 1]];
    }
  }

  /** Whitespace is never touched by padding, so removing it commutes with padding. */
  lemma {:induction false} PaddedNonSpace(src: string)
    ensures NonSpace(Padded(src)) == NonSpace(src)
    decreases |src|
  {
    if src != [] {
      var p := src[..|src| - 1];
      var c := src[|src| - 1];
      PaddedNonSpace(p);
      NonSpaceAppend(Padded(p), PadChar(c));
      assert src == p + [c];
      NonSpaceAppend(p, [c]);
      if IsBracketChar(c) {
        assert [' '][1..] == [];
        assert NonSpace([' ']) == [];
        assert [c, ' '][1..] == [' '];
        assert NonSpace([c, ' ']) == [c];
        assert [' ', c, ' '][1..] == [c, ' '];
        assert NonSpace([' ', c, ' ']) == [c];
        assert [c][1..] == [];
        assert NonSpace([c]) == [c];
      }
    }
  }

  lemma {:induction false} SeparatedAppend(a: string, b: string)
    requires Separated(a) && PlainEnds(a)
    requires Separated(b) && PlainEnds(b)
    ensures Separated(a + b) && PlainEnds(a + b)
  {
    var s := a + b;
    forall i | 0 <= i < |s| && IsBracketChar(s[i])
      ensures (0 < i ==> IsSpace(s[i - 1])) && (i + 1 < |s| ==> IsSpace(s[i + 1]))
    {
      if i < |a| {
        assert s[i] == a[i];
        assert i != |a| - 1;
        assert s[i + 1] == a[i + 1];
        if 0 < i { assert s[i - 1] == a[i - 1]; }
      } else {
        var j := i - |a|;
        assert s[i] == b[j];
        assert j != 0;
        assert s[i - 1] == b[j - 1];
        if i + 1 < |s| { assert s[i + 1] == b[j + 1]; }
      }
    }
    if s != [] {
      if a == [] { assert s == b; }
      else if b == [] { assert s == a; }
      else {
        assert s[0] == a[0];
        assert s[|s| - 1] == b[|b| - 1];
      }
    }
  }

  lemma {:induction false} PaddedSeparated(src: string)
    ensures Separated(Padded(src)) && PlainEnds(Padded(src))
    decreases |src|
  {
    if src != [] {
      var p := src[..|src| - 1];
      var c := src[|src| - 1];
      PaddedSeparated(p);
      SeparatedAppend(Padded(p), PadChar(c));
    }
  }

  lemma SeparatedSuffix(s: string, m: nat)
    requires Separated(s) && m <= |s|
    ensures Separated(s[m..])
  {
    var t := s[m..];
    forall i | 0 <= i < |t| && IsBracketChar(t[i])
      ensures (0 < i ==> IsSpace(t[i - 1])) && (i + 1 < |t| ==> IsSpace(t[i + 1]))
    {
      assert t[i] == s[m + i];
      if 0 < i { assert t[i - 1] == s[m + i - 1]; }
      if i + 1 < |t| { assert t[i + 1] == s[m + i + 1]; }
    }
  }

  lemma BracketsAloneAppend(a: seq<string>, b: seq<string>)
    requires BracketsAlone(a) && BracketsAlone(b)
    ensures BracketsAlone(a + b)
  {
    var s := a + b;
    forall i, k | 0 <= i < |s| && 0 <= k < |s[i]| && IsBracketChar(s[i][k])
      ensures s[i] == [s[i][k]]
    {
      if i < |a| {
        assert s[i] == a[i];
      } else {
        assert s[i] == b[i - |a|];
      }
    }
  }

  /** The first word of separated text is a bracket alone or holds no bracket. */
  lemma FirstWordSeparated(s: string)
    requires Separated(s) && s != [] && !IsSpace(s[0])
    ensures BracketsAlone([s[..WordLen(s)]])
  {
    var n := WordLen(s);
    var w := s[..n];
    assert forall j :: 0 <= j < n ==> !IsSpace(s[j]) by {
      forall j | 0 <= j < n ensures !IsSpace(s[j]) {
        assert s[j] == w[j];
      }
    }
    if IsBracketChar(s[0]) {
      assert 1 < |s| ==> IsSpace(s[1]);
      assert n == 1;
      assert w == [s[0]];
    } else {
      assert NoBracket(w) by {
        forall j | 0 <= j < n ensures !IsBracketChar(w[j]) {
          assert w[j] == s[j];
          if j > 0 {
            assert !IsSpace(s[j - 1]);
          }
        }
      }
    }
  }

  /** In text where brackets are separated by whitespace, each bracket becomes a token of its own. */
  lemma {:induction false} SplitSeparated(s: string)
    requires Separated(s)
    ensures BracketsAlone(Split(s))
    decreases |s|
  {
    if s == [] {
    } else if IsSpace(s[0]) {
      SeparatedSuffix(s, 1);
      SplitSeparated(s[1..]);
    } else {
      var n := WordLen(s);
      SeparatedSuffix(s, n);
      SplitSeparated(s[n..]);
      FirstWordSeparated(s);
      BracketsAloneAppend([s[..n]], Split(s[n..]));
    }
  }

  /** Every bracket character of the source becomes a one-character token. */
  lemma TokensBracketsAlone(src: string)
    ensures BracketsAlone(Tokens(src))
  {
    PaddedSeparated(src);
    SplitSeparated(Padded(src));
  }

  /** Concatenating the tokens gives the source with all whitespace removed. */
  lemma TokensConcat(src: string)
    ensures Concat(Tokens(src)) == NonSpace(src)
  {
    SplitConcat(Padded(src));
    PaddedNonSpace(src);
  }

  /** Whitespace separates tokens and is otherwise insignificant. */
  lemma TokensAtSpace(x: string, c: char, y: string)
    requires IsSpace(c)
    ensures Tokens(x + [c] + y) == Tokens(x) + Tokens(y)
  {
    PaddedAppend(x + [c], y);
    PaddedAppend(x, [c]);
    PaddedChar(c);
    SplitAtSpace(Padded(x), c, Padded(y));
  }

  /** A bracket character is a token of its own wherever it stands. */
  lemma TokensAtBracket(x: string, c: char, y: string)
    requires IsBracketChar(c)
    ensures Tokens(x + [c] + y) == Tokens(x) + [[c]] + Tokens(y)
  {
    PaddedAtBracket(x, c, y);
    SplitAtPaddedBracket(Padded(x), c, Padded(y));
  }

  lemma PaddedAtBracket(x: string, c: char, y: string)
    requires IsBracketChar(c)
    ensures Padded(x + [c] + y) == Padded(x) + [' ', c, ' '] + Padded(y)
  {
    PaddedAppend(x + [c], y);
    PaddedAppend(x, [c]);
    PaddedChar(c);
  }

  lemma SplitAtPaddedBracket(p: string, c: char, q: string)
    requires IsBracketChar(c)
    ensures Split(p + [' ', c, ' '] + q) == Split(p) + [[c]] + Split(q)
  {
    var rest := [c] + ([' '] + q);
    assert p + [' ', c, ' '] + q == p + [' '] + rest;
    SplitAtSpace(p, ' ', rest);
    SplitBracketFirst(c, q);
  }

  lemma SplitBracketFirst(c: char, q: string)
    requires IsBracketChar(c)
    ensures Split([c] + ([' '] + q)) == [[c]] + Split(q)
  {
    SplitWordAppend([c], [' '] + q);
    SplitSpaceCons(' ', q);
  }

  /** The tokens the lexer can produce: a bracket alone, or a bracket-free word. */
  predicate LexToken(t: string) {
    IsWord(t) && (|t| == 1 || NoBracket(t))
  }

  lemma TokensAreLexTokens(src: string)
    ensures forall i :: 0 <= i < |Tokens(src)| ==> LexToken(Tokens(src)[i])
  {
    var ts := Tokens(src);
    TokensBracketsAlone(src);
    forall i | 0 <= i < |ts| ensures LexToken(ts[i]) {
      if !NoBracket(ts[i]) {
        var k :| 0 <= k < |ts[i]| && IsBracketChar(ts[i][k]);
        assert ts[i] == [ts[i][k]];
      }
    }
  }

  lemma SplitPadToken(t: string, rest: string)
    requires LexToken(t)
    requires rest == [] || IsSpace(rest[0])
    ensures Split(Padded(t) + rest) == [t] + Split(rest)
  {
    if NoBracket(t) {
      PaddedPlain(t);
      SplitWordAppend(t, rest);
    } else {
      var c := t[0];
      assert t == [c];
      PaddedChar(c);
      assert IsBracketChar(c);
      assert Padded(t) + rest == [' '] + (t + ([' '] + rest));
      SplitSpaceCons(' ', t + ([' '] + rest));
      SplitWordAppend(t, [' '] + rest);
      SplitSpaceCons(' ', rest);
    }
  }

  /** Lexing the space-joined tokens of a lexer result gives that result back. */
  lemma {:induction false} TokensOfJoin(ts: seq<string>)
    requires forall i :: 0 <= i < |ts| ==> LexToken(ts[i])
    ensures Tokens(Join(ts)) == ts
    decreases |ts|
  {
    if ts == [] {
    } else if |ts| == 1 {
      SplitPadToken(ts[0], []);
      assert Padded(ts[0]) + [] == Padded(ts[0]);
    } else {
      var rest := ts[1..];
      assert forall i :: 0 <= i < |rest| ==> LexToken(rest[i]) by {
        forall i | 0 <= i < |rest| ensures LexToken(rest[i]) {
          assert rest[i] == ts[i + 1];
        }
      }
      TokensOfJoin(rest);
      var j := Join(rest);
      assert Join(ts) == ts[0] + ([' '] + j);
      PaddedAppend(ts[0], [' '] + j);
      PaddedAppend([' '], j);
      PaddedChar(' ');
      SplitPadToken(ts[0], [' '] + Padded(j));
      SplitSpaceCons(' ', Padded(j));
    }
  }

  /** Lexing is idempotent: `lex(' '.join(lex(s))) == lex(s)`. */
  lemma LexIdempotent(src: string)
    ensures Tokens(Join(Tokens(src))) == Tokens(src)
  {
    TokensAreLexTokens(src);
    TokensOfJoin(Tokens(src));
  }

  /** A run of characters with neither whitespace nor brackets, such as `934`, is one token. */
  lemma PlainRunIsOneToken(w: string)
    requires IsWord(w) && NoBracket(w)
    ensures Tokens(w) == [w]
  {
    TokensOfJoin([w]);
  }

  // ---- an independent reference: a direct left-to-right scanner ----

  /** Length of the longest prefix of `s` with neither whitespace nor bracket characters. */
  function PlainLen(s: string): (n: nat)
    ensures n <= |s|
    ensures forall k :: 0 <= k < n ==> !IsSpace(s[k]) && !IsBracketChar(s[k])
    ensures n < |s| ==> IsSpace(s[n]) || IsBracketChar(s[n])
  {
    if s == [] || IsSpace(s[0]) || IsBracketChar(s[0]) then 0 else 1 + PlainLen(s[1..])
  }

  /**
   * The token list read off the source directly: whitespace is skipped, a
   * bracket character is a token by itself, and any other run is one token.
   */
  function Scan(s: string): seq<string>
    decreases |s|
  {
    if s == [] then []
    else if IsSpace(s[0]) then Scan(s[1..])
    else if IsBracketChar(s[0]) then [[s[0]]] + Scan(s[1..])
    else
      var n := PlainLen(s);
      [s[..n]] + Scan(s[n..])
  }

  /** Padding and splitting yields exactly the tokens of the direct scanner. */
  lemma {:induction false} TokensAreScan(src: string)
    ensures Tokens(src) == Scan(src)
    decreases |src|
  {
    if src == [] {
    } else if IsSpace(src[0]) || IsBracketChar(src[0]) {
      TokensAreScan(src[1..]);
      ScanSkip(src);
    } else if PlainLen(src) == |src| {
      ScanWhole(src);
    } else {
      TokensAreScan(src[PlainLen(src) + 1..]);
      ScanRun(src);
    }
  }

  /** The case of `TokensAreScan` where the source starts with whitespace or a bracket. */
  lemma ScanSkip(src: string)
    requires src != [] && (IsSpace(src[0]) || IsBracketChar(src[0]))
    requires Tokens(src[1..]) == Scan(src[1..])
    ensures Tokens(src) == Scan(src)
  {
    SplitAround(src, 0);
    assert src[..0] == [];
    ScanSeparator(src);
    if IsSpace(src[0]) {
      TokensAtSpace([], src[0], src[1..]);
    } else {
      TokensAtBracket([], src[0], src[1..]);
    }
  }

  /** The case of `TokensAreScan` where the whole source is one plain run. */
  lemma ScanWhole(src: string)
    requires src != [] && PlainLen(src) == |src|
    ensures Tokens(src) == Scan(src)
  {
    assert src[..|src|] == src;
    assert src[|src|..] == [];
    PlainRunIsOneToken(src);
  }

  /** The case of `TokensAreScan` where a plain run is followed by whitespace or a bracket. */
  lemma ScanRun(src: string)
    requires src != [] && !IsSpace(src[0]) && !IsBracketChar(src[0]) && PlainLen(src) < |src|
    requires Tokens(src[PlainLen(src) + 1..]) == Scan(src[PlainLen(src) + 1..])
    ensures Tokens(src) == Scan(src)
  {
    var n := PlainLen(src);
    var w, c, tail := src[..n], src[n], src[n + 1..];
    PlainRunToken(src);
    ScanSeparator(src[n..]);
    assert src[n..][1..] == tail;
    SplitAround(src, n);
    if IsSpace(c) {
      TokensAtSpace(w, c, tail);
    } else {
      TokensAtBracket(w, c, tail);
    }
  }

  /** A string is its part before position `n`, the character at `n`, and the part after. */
  lemma SplitAround(s: string, n: nat)
    requires n < |s|
    ensures s == s[..n] + [s[n]] + s[n + 1..]
  {
  }

  /** A plain run at the front of the source is one token, and the scanner takes it whole. */
  lemma PlainRunToken(src: string)
    requires src != [] && !IsSpace(src[0]) && !IsBracketChar(src[0])
    ensures Tokens(src[..PlainLen(src)]) == [src[..PlainLen(src)]]
    ensures Scan(src) == [src[..PlainLen(src)]] + Scan(src[PlainLen(src)..])
  {
    var w := src[..PlainLen(src)];
    assert IsWord(w) && NoBracket(w);
    PlainRunIsOneToken(w);
  }

  /** The scanner drops a leading whitespace character and keeps a leading bracket as a token. */
  lemma ScanSeparator(rest: string)
    requires rest != [] && (IsSpace(rest[0]) || IsBracketChar(rest[0]))
    ensures IsSpace(rest[0]) ==> Scan(rest) == Scan(rest[1..])
    ensures !IsSpace(rest[0]) ==> Scan(rest) == [[rest[0]]] + Scan(rest[1..])
  {
  }

  // ---- the lexer's unit tests, worked out ----

  lemma LargeNumbersTail()
    ensures Tokens("934]") == ["934", "]"]
  {
    assert "934]" == "934" + [']'] + [];
    TokensAtBracket("934", ']', []);
    PlainRunIsOneToken("934");
  }

  lemma LargeNumbersHead()
    ensures Tokens("10") == ["10"]
  {
    PlainRunIsOneToken("10");
  }

  lemma LargeNumbersBody()
    ensures Tokens("10\n934]") == ["10", "934", "]"]
  {
    assert "10\n934]" == "10" + ['\n'] + "934]";
    TokensAtSpace("10", '\n', "934]");
    LargeNumbersTail();
    LargeNumbersHead();
    assert ["10"] + ["934", "]"] == ["10", "934", "]"];
  }

  /** `[10\n934]` lexes to `[`, `10`, `934`, `]`: digit runs stay whole, the newline separates. */
  lemma LargeNumbers()
    ensures Tokens("[10\n934]") == ["[", "10", "934", "]"]
  {
    assert "[10\n934]" == [] + ['['] + "10\n934]";
    TokensAtBracket([], '[', "10\n934]");
    LargeNumbersBody();
  }
}
