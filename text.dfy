/**
 * Text helpers shared by the front end: Python 2's notion of whitespace,
 * `str.split()` with no argument, `' '.join(...)`, and the decimal
 * conversions behind `str(n)` and `int(s)`.
 */
module Text {
  import opened Wrappers

  /** The whitespace characters of Python 2's `str.split()` and of the regex class `\s`. */
  predicate IsSpace(c: char) {
    c == ' ' || c == '\t' || c == '\n' || c == '\r' || c == '\U{000B}' || c == '\U{000C}'
  }

  predicate NoSpace(s: string) {
    forall k :: 0 <= k < |s| ==> !IsSpace(s[k])
  }

  /** A token as `str.split()` produces it: non-empty, no whitespace inside. */
  predicate IsWord(w: string) {
    w != [] && NoSpace(w)
  }

  predicate AllWords(ts: seq<string>) {
    forall i :: 0 <= i < |ts| ==> IsWord(ts[i])
  }

  /** Length of the longest whitespace-free prefix of `s`. */
  function WordLen(s: string): (n: nat)
    ensures n <= |s|
    ensures NoSpace(s[..n])
    ensures n < |s| ==> IsSpace(s[n])
  {
    if s == [] || IsSpace(s[0]) then 0
    else
      var m := WordLen(s[1..]);
      assert s[..1 + m] == [s[0]] + s[1..][..m];
      1 + m
  }

  /** Python 2's `s.split()`: the maximal whitespace-free runs of `s`, in order. */
  function Split(s: string): (r: seq<string>)
    ensures AllWords(r)
    decreases |s|
  {
    if s == [] then []
    else if IsSpace(s[0]) then Split(s[1..])
    else
      var n := WordLen(s);
      assert s[..n][0] == s[0];
      [s[..n]] + Split(s[n..])
  }

  /** `s` with every whitespace character removed. */
  function NonSpace(s: string): (r: string)
    ensures NoSpace(r)
    ensures |r| <= |s|
  {
    if s == [] then []
    else (if IsSpace(s[0]) then [] else [s[0]]) + NonSpace(s[1..])
  }

  /** `''.join(ts)`. */
  function Concat(ts: seq<string>): string {
    if ts == [] then [] else ts[0] + Concat(ts[1..])
  }

  /** `sep.join(ts)`. */
  function JoinWith(ts: seq<string>, sep: string): string {
    if ts == [] then []
    else if |ts| == 1 then ts[0]
    else ts[0] + sep + JoinWith(ts[1..], sep)
  }

  /** `' '.join(ts)`. */
  function Join(ts: seq<string>): string {
    JoinWith(ts, " ")
  }

  /** `'\n'.join(ts)`. */
  function Lines(ts: seq<string>): string {
    JoinWith(ts, "\n")
  }

  lemma {:induction false} NonSpaceAppend(a: string, b: string)
    ensures NonSpace(a + b) == NonSpace(a) + NonSpace(b)
    decreases |a|
  {
    if a == [] {
      assert a + b == b;
    } else {
      assert (a + b)[0] == a[0];
      assert (a + b)[1..] == a[1..] + b;
      NonSpaceAppend(a[1..], b);
    }
  }

  lemma {:induction false} NonSpaceOfNoSpace(s: string)
    requires NoSpace(s)
    ensures NonSpace(s) == s
    decreases |s|
  {
    if s != [] {
      assert NoSpace(s[1..]) by {
        forall k | 0 <= k < |s[1..]| ensures !IsSpace(s[1..][k]) {
          assert s[1..][k] == s[k + 1];
        }
      }
      NonSpaceOfNoSpace(s[1..]);
      assert s == [s[0]] + s[1..];
    }
  }

  lemma {:induction false} ConcatAppend(a: seq<string>, b: seq<string>)
    ensures Concat(a + b) == Concat(a) + Concat(b)
    decreases |a|
  {
    if a == [] {
      assert a + b == b;
    } else {
      assert (a + b)[0] == a[0];
      assert (a + b)[1..] == a[1..] + b;
      ConcatAppend(a[1..], b);
    }
  }

  /** Joining the words of `s` back together gives `s` without its whitespace. */
  lemma {:induction false} SplitConcat(s: string)
    ensures Concat(Split(s)) == NonSpace(s)
    decreases |s|
  {
    if s == [] {
    } else if IsSpace(s[0]) {
      SplitConcat(s[1..]);
    } else {
      var n := WordLen(s);
      SplitConcat(s[n..]);
      assert s == s[..n] + s[n..];
      NonSpaceAppend(s[..n], s[n..]);
      NonSpaceOfNoSpace(s[..n]);
    }
  }

  /** Leading whitespace is insignificant to `split()`. */
  lemma SplitSpaceCons(c: char, x: string)
    requires IsSpace(c)
    ensures Split([c] + x) == Split(x)
  {
    assert ([c] + x)[1..] == x;
  }

  lemma {:induction false} WordLenAppend(w: string, x: string)
    requires NoSpace(w)
    requires x == [] || IsSpace(x[0])
    ensures WordLen(w + x) == |w|
    decreases |w|
  {
    if w == [] {
      assert w + x == x;
    } else {
      assert (w + x)[0] == w[0];
      assert (w + x)[1..] == w[1..] + x;
      assert NoSpace(w[1..]) by {
        forall k | 0 <= k < |w[1..]| ensures !IsSpace(w[1..][k]) {
          assert w[1..][k] == w[k + 1];
        }
      }
      WordLenAppend(w[1..], x);
    }
  }

  /** A word followed by whitespace (or by nothing) is split off as one token. */
  lemma SplitWordAppend(w: string, x: string)
    requires IsWord(w)
    requires x == [] || IsSpace(x[0])
    ensures Split(w + x) == [w] + Split(x)
  {
    var s := w + x;
    var n := WordLen(s);
    WordLenAppend(w, x);
    assert s[0] == w[0];
    assert s[..n] == w;
    assert s[n..] == x;
  }

  lemma {:induction false} WordLenLonger(a: string, x: string)
    requires WordLen(a) < |a|
    ensures WordLen(a + x) == WordLen(a)
    decreases |a|
  {
    if !IsSpace(a[0]) {
      assert (a + x)[0] == a[0];
      assert (a + x)[1..] == a[1..] + x;
      WordLenLonger(a[1..], x);
    } else {
      assert (a + x)[0] == a[0];
    }
  }

  /** A whitespace character separates: `(a + c + b).split() == a.split() + b.split()`. */
  lemma {:induction false} SplitAtSpace(a: string, c: char, b: string)
    requires IsSpace(c)
    ensures Split(a + [c] + b) == Split(a) + Split(b)
    decreases |a|
  {
    var s := a + [c] + b;
    if a == [] {
      assert s == [c] + b;
      SplitSpaceCons(c, b);
    } else if IsSpace(a[0]) {
      assert s[0] == a[0];
      assert s[1..] == a[1..] + [c] + b;
      SplitAtSpace(a[1..], c, b);
    } else if WordLen(a) == |a| {
      SplitWholeWord(a, c, b);
    } else {
      SplitAtSpace(a[WordLen(a)..], c, b);
      SplitFirstWord(a, c, b);
    }
  }

  /** The case of `SplitAtSpace` where `a` is one word. */
  lemma SplitWholeWord(a: string, c: char, b: string)
    requires IsSpace(c) && a != [] && !IsSpace(a[0]) && WordLen(a) == |a|
    ensures Split(a + [c] + b) == Split(a) + Split(b)
  {
    assert a[..WordLen(a)] == a;
    assert a + [] == a;
    SplitWordAppend(a, []);
    assert a + [c] + b == a + ([c] + b);
    SplitWordAppend(a, [c] + b);
    SplitSpaceCons(c, b);
  }

  /** The case of `SplitAtSpace` where `a` goes on after its first word. */
  lemma SplitFirstWord(a: string, c: char, b: string)
    requires IsSpace(c) && a != [] && !IsSpace(a[0]) && WordLen(a) < |a|
    requires Split(a[WordLen(a)..] + [c] + b) == Split(a[WordLen(a)..]) + Split(b)
    ensures Split(a + [c] + b) == Split(a) + Split(b)
  {
    var s := a + [c] + b;
    var n := WordLen(a);
    WordLenLonger(a, [c] + b);
    assert s == a + ([c] + b);
    assert s[0] == a[0];
    assert s[..n] == a[..n];
    assert s[n..] == a[n..] + [c] + b;
  }

  /** `' '.join` followed by `split()` gives the words back. */
  lemma {:induction false} SplitJoin(ts: seq<string>)
    requires AllWords(ts)
    ensures Split(Join(ts)) == ts
    decreases |ts|
  {
    if ts == [] {
    } else if |ts| == 1 {
      SplitWordAppend(ts[0], []);
      assert ts[0] + [] == ts[0];
    } else {
      assert AllWords(ts[1..]) by {
        forall i | 0 <= i < |ts[1..]| ensures IsWord(ts[1..][i]) {
          assert ts[1..][i] == ts[i + 1];
        }
      }
      SplitJoin(ts[1..]);
      var rest := Join(ts[1..]);
      assert ts[0] + " " + rest == ts[0] + ([' '] + rest);
      SplitWordAppend(ts[0], [' '] + rest);
      SplitSpaceCons(' ', rest);
    }
  }

  // ---- decimal numbers: str(n) and int(s) ----

  predicate IsDigit(c: char) {
    '0' <= c <= '9'
  }

  predicate AllDigits(s: string) {
    forall k :: 0 <= k < |s| ==> IsDigit(s[k])
  }

  function DigitChar(d: nat): (c: char)
    requires d < 10
    ensures IsDigit(c) && c as int - '0' as int == d
  {
    ('0' as int + d) as char
  }

  /** `str(n)` for a natural number: its decimal digits, most significant first, no leading zero. */
  function ToDecimal(n: nat): (r: string)
    ensures r != [] && AllDigits(r)
    ensures r[0] == '0' ==> n == 0
  {
    if n < 10 then [DigitChar(n)]
    else
      var hi := ToDecimal(n / 10);
      assert (hi + [DigitChar(n % 10)])[0] == hi[0];
      hi + [DigitChar(n % 10)]
  }

  /** The value of a string of decimal digits. */
  function DigitsValue(s: string): nat
    requires AllDigits(s)
  {
    if s == [] then 0
    else DigitsValue(s[..|s| - 1]) * 10 + (s[|s| - 1] as int - '0' as int)
  }

  /** Python's `int(s)` on a whitespace-free string: an optional sign and at least one digit. */
  function ParseInt(s: string): (r: Option<int>)
    ensures r.Some? <==>
      (s != [] && AllDigits(s)) ||
      (|s| >= 2 && (s[0] == '-' || s[0] == '+') && AllDigits(s[1..]))
  {
    if s != [] && AllDigits(s) then Some(DigitsValue(s) as int)
    else if |s| >= 2 && s[0] == '-' && AllDigits(s[1..]) then Some(0 - DigitsValue(s[1..]))
    else if |s| >= 2 && s[0] == '+' && AllDigits(s[1..]) then Some(DigitsValue(s[1..]) as int)
    else None
  }

  lemma {:induction false} DecimalValue(n: nat)
    ensures DigitsValue(ToDecimal(n)) == n
    decreases n
  {
    if n >= 10 {
      DecimalValue(n / 10);
      var r := ToDecimal(n);
      assert r[..|r| - 1] == ToDecimal(n / 10);
    }
  }

  /** `int(str(n)) == n`. */
  lemma ParseDecimal(n: nat)
    ensures ParseInt(ToDecimal(n)) == Some(n)
  {
    DecimalValue(n);
  }

  /** `int('-' + str(n)) == -n` and `int('+' + str(n)) == n`: a signed token reads back with its sign. */
  lemma ParseSigned(n: nat)
    ensures ParseInt("-" + ToDecimal(n)) == Some(0 - n)
    ensures ParseInt("+" + ToDecimal(n)) == Some(n)
  {
    var d := ToDecimal(n);
    DecimalValue(n);
    assert ("-" + d)[1..] == d && ("+" + d)[1..] == d;
    assert !IsDigit(("-" + d)[0]) && !IsDigit(("+" + d)[0]);
  }
}
