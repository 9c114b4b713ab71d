/**
 * The text-to-program tool: each character becomes its decimal code point
 * followed by the output builtin and a space, so that the program prints
 * the codes of the text one after another.
 */
module TextEncoder {
  import opened Wrappers
  import opened Text
  import opened Lists

  /** What one character contributes. */
  function Piece(c: char): string {
    ToDecimal(c as int) + " . "
  }

  /** The tool's output for `text`: the pieces of its characters, left to right. */
  function Encoding(text: string): string
    decreases |text|
  {
    if text == [] then [] else Encoding(text[..|text| - 1]) + Piece(text[|text| - 1])
  }

  /** `parse`: the loop that appends each character's piece to the accumulator. */
  method Parse(text: string) returns (stercus: string)
    ensures stercus == Encoding(text)
  {
    stercus := "";
    for i := 0 to |text|
      invariant stercus == Encoding(text[..i])
    {
      assert text[..i + 1][..i] == text[..i];
      stercus := stercus + ToDecimal(text[i] as int) + " . ";
    }
    assert text[..|text|] == text;
  }

  /** The tokens the output splits into: each character's code followed by `.`. */
  function Codes(text: string): (r: seq<string>)
    ensures |r| == 2 * |text|
    decreases |text|
  {
    if text == [] then [] else Codes(text[..|text| - 1]) + [ToDecimal(text[|text| - 1] as int), "."]
  }

  /** The code points a character can have. */
  predicate IsScalar(v: int) {
    (0 <= v < 0xD800) || (0xE000 <= v < 0x11_0000)
  }

  /** Read a token list back as text: code, `.`, code, `.`, …; `None` when it is not of that shape. */
  function Decode(ts: seq<string>): Option<string>
    decreases |ts|
  {
    if ts == [] then Some([])
    else if |ts| >= 2 && ts[|ts| - 1] == "." then
      match ParseInt(ts[|ts| - 2])
      case Some(v) =>
        if IsScalar(v) then
          match Decode(ts[..|ts| - 2])
          case Some(prefix) => Some(prefix + [v as char])
          case None => None
        else None
      case None => None
    else None
  }

  // ---- properties ----

  lemma EncodingEmpty()
    ensures Encoding("") == ""
  {
  }

  /** The encoding of a concatenation is the concatenation of the encodings. */
  lemma {:induction false} EncodingAppend(a: string, b: string)
    ensures Encoding(a + b) == Encoding(a) + Encoding(b)
    decreases |b|
  {
    if b == [] {
      assert a + b == a;
    } else {
      var init, c := b[..|b| - 1], b[|b| - 1];
      assert a + b == (a + init) + [c];
      EncodingSnoc(a + init, c);
      EncodingSnoc(init, c);
      EncodingAppend(a, init);
    }
  }

  lemma EncodingSnoc(s: string, c: char)
    ensures Encoding(s + [c]) == Encoding(s) + Piece(c)
  {
    assert (s + [c])[..|s|] == s;
  }

  /** Every character of the output is a decimal digit, a space or `.`. */
  lemma {:induction false} EncodingAlphabet(text: string)
    ensures forall k :: 0 <= k < |Encoding(text)| ==>
      IsDigit(Encoding(text)[k]) || Encoding(text)[k] == ' ' || Encoding(text)[k] == '.'
    decreases |text|
  {
    if text != [] {
      var e := Encoding(text[..|text| - 1]);
      EncodingAlphabet(text[..|text| - 1]);
      var d := ToDecimal(text[|text| - 1] as int);
      assert Encoding(text) == e + d + " . ";
      forall k | 0 <= k < |Encoding(text)|
        ensures IsDigit(Encoding(text)[k]) || Encoding(text)[k] == ' ' || Encoding(text)[k] == '.'
      {
        if k < |e| {
          assert Encoding(text)[k] == e[k];
        } else if k < |e| + |d| {
          assert Encoding(text)[k] == d[k - |e|];
        }
      }
    }
  }

  lemma {:induction false} DigitsHaveNoDot(s: string)
    requires AllDigits(s)
    ensures Count(s, '.') == 0
    decreases |s|
  {
    if s != [] {
      assert AllDigits(s[1..]) by {
        forall k | 0 <= k < |s[1..]| ensures IsDigit(s[1..][k]) {
          assert s[1..][k] == s[k + 1];
        }
      }
      DigitsHaveNoDot(s[1..]);
    }
  }

  /** There is exactly one `.` per character of the text. */
  lemma {:induction false} EncodingDots(text: string)
    ensures Count(Encoding(text), '.') == |text|
    decreases |text|
  {
    if text != [] {
      var e := Encoding(text[..|text| - 1]);
      var d := ToDecimal(text[|text| - 1] as int);
      EncodingDots(text[..|text| - 1]);
      assert Encoding(text) == e + (d + " . ");
      CountAppend(e, d + " . ", '.');
      CountAppend(d, " . ", '.');
      DigitsHaveNoDot(d);
      assert " . "[1..] == ". " && ". "[1..] == " " && " "[1..] == "";
      assert Count(" . ", '.') == 1;
    }
  }

  /** For non-empty text the output ends with a space. */
  lemma EncodingEnd(text: string)
    requires text != []
    ensures Encoding(text) != [] && Encoding(text)[|Encoding(text)| - 1] == ' '
  {
  }

  /** One piece splits into the code and `.`. */
  lemma SplitPiece(c: char)
    ensures Split(Piece(c)) == [ToDecimal(c as int), "."]
  {
    var d := ToDecimal(c as int);
    assert IsWord(d);
    assert Piece(c) == d + [' '] + ". ";
    SplitAtSpace(d, ' ', ". ");
    SplitWordAppend(d, []);
    assert d + [] == d;
    assert ". " == "." + " ";
    assert IsWord(".");
    SplitWordAppend(".", " ");
    assert Split(" ") == [] by {
      assert " "[1..] == [];
    }
  }

  /** After a trailing space, splitting a concatenation splits the parts separately. */
  lemma SplitAfterSpace(e: string, p: string)
    requires e != [] && e[|e| - 1] == ' '
    ensures Split(e + p) == Split(e) + Split(p)
  {
    var e' := e[..|e| - 1];
    assert e == e' + [' '] + [];
    assert e + p == e' + [' '] + p;
    SplitAtSpace(e', ' ', p);
    SplitAtSpace(e', ' ', []);
  }

  /** Splitting the output on whitespace gives each character's code followed by `.`. */
  lemma {:induction false} SplitEncoding(text: string)
    ensures Split(Encoding(text)) == Codes(text)
    decreases |text|
  {
    if text != [] {
      var init := text[..|text| - 1];
      var c := text[|text| - 1];
      SplitEncoding(init);
      SplitPiece(c);
      if init == [] {
        assert Encoding(text) == Piece(c);
      } else {
        EncodingEnd(init);
        SplitAfterSpace(Encoding(init), Piece(c));
      }
    }
  }

  /** Reading the codes back recovers the text. */
  lemma {:induction false} DecodeCodes(text: string)
    ensures Decode(Codes(text)) == Some(text)
    decreases |text|
  {
    if text != [] {
      var init := text[..|text| - 1];
      var c := text[|text| - 1];
      var ts := Codes(text);
      assert ts[..|ts| - 2] == Codes(init);
      assert ts[|ts| - 2] == ToDecimal(c as int) && ts[|ts| - 1] == ".";
      ParseDecimal(c as int);
      DecodeCodes(init);
      assert init + [c] == text;
    }
  }

  /** The tool's output, read back token by token, is the text it was given. */
  lemma RoundTrip(text: string)
    ensures Decode(Split(Encoding(text))) == Some(text)
  {
    SplitEncoding(text);
    DecodeCodes(text);
  }
}
