/**
 * Comment removal. Two regular-expression substitutions run in order:
 * first every `##...##` span (shortest match, may cross lines) is deleted,
 * then every `#` up to (not including) the end of its line. Each
 * substitution is modelled by the left-to-right scan the regex engine
 * performs for it.
 */
module Preprocessor {
  import opened Wrappers
  import opened Text

  predicate NoHash(s: string) {
    forall k :: 0 <= k < |s| ==> s[k] != '#'
  }

  predicate NoNewline(s: string) {
    forall k :: 0 <= k < |s| ==> s[k] != '\n'
  }

  /** `s` holds no two consecutive `#` characters. */
  predicate NoDoubleHash(s: string) {
    forall j :: 0 <= j < |s| - 1 ==> !(s[j] == '#' && s[j + 1] == '#')
  }

  /** Where the first `##` of `s` starts, if there is one: the end of a shortest `##.*?##` match. */
  function FindClose(s: string): (r: Option<nat>)
    ensures r.Some? ==> r.value + 2 <= |s| && s[r.value] == '#' && s[r.value + 1] == '#'
    ensures r.Some? ==> NoDoubleHash(s[..r.value + 1])
    ensures r.None? <==> NoDoubleHash(s)
  {
    if |s| < 2 then None
    else if s[0] == '#' && s[1] == '#' then Some(0)
    else match FindClose(s[1..])
      case None => None
      case Some(j) =>
        assert s[..j + 2] == [s[0]] + s[1..][..j + 1];
        Some(j + 1)
  }

  /** `re.sub('##.*?##', '', s)` with DOTALL: delete every shortest `##...##` span, left to right. */
  function StripBlocks(s: string): (r: string)
    ensures |r| <= |s|
    ensures NoDoubleHash(s) ==> r == s
    decreases |s|
  {
    if s == [] then []
    else if |s| >= 2 && s[0] == '#' && s[1] == '#' then
      match FindClose(s[2..])
      case Some(j) => StripBlocks(s[j + 4..])
      case None => [s[0]] + StripBlocks(s[1..])
    else
      assert NoDoubleHash(s) ==> NoDoubleHash(s[1..]) by {
        if NoDoubleHash(s) {
          forall j | 0 <= j < |s[1..]| - 1 ensures !(s[1..][j] == '#' && s[1..][j + 1] == '#') {
            assert s[1..][j] == s[j + 1] && s[1..][j + 1] == s[j + 2];
          }
        }
      }
      [s[0]] + StripBlocks(s[1..])
  }

  /** Length of the line that starts `s`: the index of its first newline, or `|s|`. */
  function LineLen(s: string): (n: nat)
    ensures n <= |s|
    ensures NoNewline(s[..n])
    ensures n < |s| ==> s[n] == '\n'
  {
    if s == [] || s[0] == '\n' then 0
    else
      var m := LineLen(s[1..]);
      assert s[..m + 1] == [s[0]] + s[1..][..m];
      m + 1
  }

  /** `re.sub('#.*?$', '', s)` with MULTILINE: delete from each `#` up to its line's end, keeping the newline. */
  function StripLines(s: string): (r: string)
    ensures NoHash(r)
    ensures |r| <= |s|
    ensures NoHash(s) ==> r == s
    decreases |s|
  {
    if s == [] then []
    else if s[0] == '#' then StripLines(s[LineLen(s)..])
    else
      assert NoHash(s) ==> NoHash(s[1..]) by {
        if NoHash(s) {
          forall k | 0 <= k < |s[1..]| ensures s[1..][k] != '#' {
            assert s[1..][k] == s[k + 1];
          }
        }
      }
      [s[0]] + StripLines(s[1..])
  }

  /** Remove multi-line comments, then single-line comments. */
  function RemoveComments(src: string): (r: string)
    ensures NoHash(r)
    ensures NoHash(src) ==> r == src
  {
    assert NoHash(src) ==> NoDoubleHash(src);
    StripLines(StripBlocks(src))
  }

  /** The preprocessing step: comment removal only. */
  function Preprocess(src: string): (r: string)
    ensures NoHash(r)
  {
    RemoveComments(src)
  }

  /** Preprocessing text that holds no comment character changes nothing. */
  lemma PreprocessNoHash(src: string)
    requires NoHash(src)
    ensures Preprocess(src) == src
  {
  }

  /** Preprocessing is idempotent. */
  lemma PreprocessIdempotent(src: string)
    ensures Preprocess(Preprocess(src)) == Preprocess(src)
  {
    PreprocessNoHash(Preprocess(src));
  }

  /** Text without `#` passes the line scan unchanged, and a line comment is cut at its newline. */
  lemma {:induction false} StripLinesPrefix(a: string, b: string)
    requires NoHash(a)
    ensures StripLines(a + b) == a + StripLines(b)
    decreases |a|
  {
    if a != [] {
      assert (a + b)[0] == a[0];
      assert (a + b)[1..] == a[1..] + b;
      assert NoHash(a[1..]) by {
        forall k | 0 <= k < |a[1..]| ensures a[1..][k] != '#' {
          assert a[1..][k] == a[k + 1];
        }
      }
      StripLinesPrefix(a[1..], b);
    } else {
      assert a + b == b;
    }
  }

  /** A line comment runs to the end of its line; the newline and the next line are kept. */
  lemma LineComment(a: string, c: string, b: string)
    requires NoHash(a) && NoNewline(c)
    ensures StripLines(a + "#" + c + "\n" + b) == a + "\n" + StripLines(b)
  {
    var t := "#" + c + "\n" + b;
    assert a + "#" + c + "\n" + b == a + t;
    StripLinesPrefix(a, t);
    CommentLineLen(c, b);
    assert StripLines("\n" + b) == "\n" + StripLines(b) by {
      assert ("\n" + b)[1..] == b;
    }
    assert a + ("\n" + StripLines(b)) == a + "\n" + StripLines(b);
  }

  /** A comment line reaches up to its newline. */
  lemma CommentLineLen(c: string, b: string)
    requires NoNewline(c)
    ensures LineLen("#" + c + "\n" + b) == |c| + 1
    ensures ("#" + c + "\n" + b)[|c| + 1..] == "\n" + b
  {
    var u := "#" + c;
    assert NoNewline(u) by {
      forall k | 0 <= k < |u| ensures u[k] != '\n' {
        if k > 0 { assert u[k] == c[k - 1]; }
      }
    }
    LineLenOfLine(u, b);
  }

  /** A line without newline, then a newline: the line length is the line's. */
  lemma LineLenOfLine(u: string, b: string)
    requires NoNewline(u)
    ensures LineLen(u + "\n" + b) == |u| && (u + "\n" + b)[|u|..] == "\n" + b
  {
    var t := u + "\n" + b;
    assert forall k :: 0 <= k < |u| ==> t[k] == u[k];
    assert t[|u|] == '\n';
    LineLenAt(t, |u|);
    DropPrefix(u, "\n" + b);
  }

  /** Dropping a prefix's length from a concatenation leaves the rest. */
  lemma DropPrefix(u: string, r: string)
    ensures (u + r)[|u|..] == r
  {
  }

  /** The line length is the position of the first newline. */
  lemma LineLenAt(s: string, n: nat)
    requires n < |s| && s[n] == '\n'
    requires forall k :: 0 <= k < n ==> s[k] != '\n'
    ensures LineLen(s) == n
  {
  }

  /** A line comment on the last line removes the rest of the text. */
  lemma TrailingComment(a: string, c: string)
    requires NoHash(a) && NoNewline(c)
    ensures StripLines(a + "#" + c) == a
  {
    var t := "#" + c;
    assert a + "#" + c == a + t;
    StripLinesPrefix(a, t);
    var n := LineLen(t);
    assert n == |t| by {
      assert forall k :: 0 <= k < |t| ==> t[k] != '\n' by {
        forall k | 0 <= k < |t| ensures t[k] != '\n' {
          if k > 0 { assert t[k] == c[k - 1]; }
        }
      }
    }
    assert t[n..] == [];
    assert a + [] == a;
  }

  lemma NoDoubleHashTail(s: string)
    requires s != [] && NoDoubleHash(s)
    ensures NoDoubleHash(s[1..])
  {
    forall j | 0 <= j < |s[1..]| - 1 ensures !(s[1..][j] == '#' && s[1..][j + 1] == '#') {
      assert s[1..][j] == s[j + 1] && s[1..][j + 1] == s[j + 2];
    }
  }

  /** The first `##` of `t` starts at `k` when one starts there and none starts earlier. */
  lemma {:induction false} FindCloseAt(t: string, k: nat)
    requires k + 2 <= |t| && t[k] == '#' && t[k + 1] == '#'
    requires NoDoubleHash(t[..k + 1])
    ensures FindClose(t) == Some(k)
    decreases k
  {
    if k > 0 {
      var p := t[..k + 1];
      assert p[0] == t[0] && p[1] == t[1];
      NoDoubleHashTail(p);
      assert p[1..] == t[1..][..k];
      FindCloseAt(t[1..], k - 1);
    }
  }

  /** A lone `#` between hash-free texts never forms `##`. */
  lemma SingleHash(a: string, c: string)
    requires NoHash(a) && NoHash(c)
    ensures NoDoubleHash(a + "#" + c)
  {
    var s := a + "#" + c;
    forall j | 0 <= j < |s| - 1 ensures !(s[j] == '#' && s[j + 1] == '#') {
      if j < |a| { assert s[j] == a[j]; }
      else { assert s[j + 1] == c[j - |a|]; }
    }
  }

  /**
   * A block comment ends at the first `##` after its opening one: with no
   * `##` inside `c` (and `c` not ending in `#`), the span `##c##` is deleted
   * and scanning resumes right after it.
   */
  lemma BlockComment(c: string, b: string)
    requires NoDoubleHash(c + "#")
    ensures StripBlocks("##" + c + "##" + b) == StripBlocks(b)
  {
    var s := "##" + c + "##" + b;
    var t := s[2..];
    assert t == c + "##" + b;
    assert t[..|c| + 1] == c + "#";
    FindCloseAt(t, |c|);
    assert s[|c| + 4..] == b;
  }

  /** A block comment that closes at the end of the text leaves nothing behind. */
  lemma BlockCommentEnd(c: string)
    requires NoDoubleHash(c + "#")
    ensures StripBlocks("##" + c + "##") == ""
  {
    BlockComment(c, "");
    assert "##" + c + "##" + "" == "##" + c + "##";
  }

  // ---- the preprocessor's unit tests, worked out ----

  lemma StripBlocksTail(x: char, s: string)
    requires x != '#'
    ensures StripBlocks([x] + s) == [x] + StripBlocks(s)
  {
    assert ([x] + s)[1..] == s;
  }

  lemma NonGreedyTail()
    ensures StripBlocks("b##c##") == "b"
  {
    assert "b##c##" == ['b'] + "##c##";
    assert "##c##" == "##" + "c" + "##" + "";
    assert "c" + "#" == "c#";
    assert NoDoubleHash("c#");
    StripBlocksTail('b', "##c##");
    BlockComment("c", "");
  }

  /** `##a##b##c##` becomes `b`: each block ends at the nearest closing `##`. */
  lemma NonGreedyBlocks()
    ensures RemoveComments("##a##b##c##") == "b"
  {
    assert "##a##b##c##" == "##" + "a" + "##" + "b##c##";
    assert "a" + "#" == "a#";
    assert NoDoubleHash("a#");
    BlockComment("a", "b##c##");
    NonGreedyTail();
    assert NoHash("b");
  }

  /** A whole-line comment leaves nothing. */
  lemma CommentLine()
    ensures RemoveComments("# This is a simple comment.") == ""
  {
    var c := " This is a simple comment.";
    assert "# This is a simple comment." == "" + "#" + c;
    assert NoHash(c);
    SingleHash("", c);
    TrailingComment("", c);
  }

  /** A comment after code leaves the code (and the space before the comment). */
  lemma CommentEndOfLine()
    ensures RemoveComments("[0 1] " + "#" + " Comment following code.") == "[0 1] "
  {
    var a := "[0 1] ";
    var c := " Comment following code.";
    assert NoHash(a) && NoHash(c);
    SingleHash(a, c);
    TrailingComment(a, c);
  }

  lemma MultilineBody()
    ensures NoDoubleHash(" This is a comment\nthat spans multiple lines" + "#")
  {
    var c := " This is a comment\nthat spans multiple lines";
    assert NoHash(c);
    SingleHash(c, "");
    assert c + "#" + "" == c + "#";
  }

  /** A block comment spanning two lines leaves nothing. */
  lemma CommentMultiline()
    ensures RemoveComments("##" + " This is a comment\nthat spans multiple lines" + "##") == ""
  {
    MultilineBody();
    BlockCommentEnd(" This is a comment\nthat spans multiple lines");
  }
}
