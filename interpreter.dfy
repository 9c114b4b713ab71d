/**
 * The recursive interpreter of the top-level script. `expression` reads
 * one token or one bracketed block; an applicator `[acc v1 v2 … ]` applies
 * each value to the accessor's cell and yields that cell's value; a
 * conditional `(acc body )` runs its body while the accessor's cell is
 * nonzero. Memory is 10000 cells. A conditional may loop for ever, so each
 * conditional's iterations are bounded by a fuel argument that its body
 * runs with one less of.
 */
module Interpreter {
  import opened Wrappers
  import opened Text
  import opened Constants
  import opened Cells

  const MEMORY_SIZE: nat := 10000

  datatype Fault =
    | Cell(e: CellError)   // an IndexError on memory, `int()` of a non-number, or reading past the input
    | IndexPastEnd         // `tokens[start]` past the last token
    | MissingClose         // an applicator ran out of tokens before `]` ("Error!")
    | ZeroOnEntry          // a conditional whose cell is zero on entry: `loop_end` is never bound
    | OutOfFuel            // a conditional still looping when its iteration bound was reached

  /** What `expression`, `applicator` and `conditional` return: a value, the index after it, and the memory and streams. */
  datatype Res = Res(value: Value, index: nat, io: Io)

  /** `expression`: dispatch on the token at `s`. */
  function Expr(t: seq<string>, s: nat, io: Io, fuel: nat): (r: Result<Res, Fault>)
    requires s <= |t|
    ensures r.Ok? ==> s < r.value.index <= |t|
    decreases fuel, |t| - s, 2
  {
    if s == |t| then Err(IndexPastEnd)
    else if t[s] == APPLICATOR_OPEN then App(t, s + 1, io, fuel)
    else if t[s] == CONDITIONAL_OPEN then Cond(t, s + 1, io, fuel)
    else Ok(Res(Tok(t[s]), s + 1, io))
  }

  /** `applicator`, from the accessor at `s`. */
  function App(t: seq<string>, s: nat, io: Io, fuel: nat): (r: Result<Res, Fault>)
    requires s <= |t|
    ensures r.Ok? ==> s < r.value.index <= |t|
    decreases fuel, |t| - s, 3
  {
    match Expr(t, s, io, fuel)
    case Err(e) => Err(e)
    case Ok(x) =>
      match IntOf(x.value)
      case None => Err(Cell(NotANumber(x.value.s)))
      case Some(a) => AppLoop(t, x.index, a, x.io, fuel)
  }

  /** The `while index < len(tokens)` loop of `applicator`, from index `i`, on the cell `a`. */
  function AppLoop(t: seq<string>, i: nat, a: int, io: Io, fuel: nat): (r: Result<Res, Fault>)
    requires i <= |t|
    ensures r.Ok? ==> i < r.value.index <= |t|
    decreases fuel, |t| - i, 3
  {
    if i == |t| then Err(MissingClose)
    else
      match Expr(t, i, io, fuel)
      case Err(e) => Err(e)
      case Ok(x) =>
        if x.value.Tok? && IsBuiltin(x.value.s) then
          match Builtin(x.io, x.value.s, a)
          case Err(e) => Err(Cell(e))
          case Ok(io') => AppLoop(t, x.index, a, io', fuel)
        else if x.value == Tok(APPLICATOR_CLOSE) then
          match PyIndex(a, |x.io.data|)
          case None => Err(Cell(AddressOutOfRange(a)))
          case Some(c) => Ok(Res(Num(x.io.data[c]), x.index, x.io))
        else
          match IntOf(x.value)
          case None => Err(Cell(NotANumber(x.value.s)))
          case Some(v) =>
            match Store(x.io, a, v)
            case Err(e) => Err(Cell(e))
            case Ok(io') => AppLoop(t, x.index, a, io', fuel)
  }

  /** `conditional`, from the accessor at `s`. */
  function Cond(t: seq<string>, s: nat, io: Io, fuel: nat): (r: Result<Res, Fault>)
    requires s <= |t|
    ensures r.Ok? ==> s < r.value.index <= |t|
    decreases fuel, |t| - s, 3
  {
    match Expr(t, s, io, fuel)
    case Err(e) => Err(e)
    case Ok(x) =>
      match IntOf(x.value)
      case None => Err(Cell(NotANumber(x.value.s)))
      case Some(a) => CondLoop(t, x.index, a, x.io, fuel, None)
  }

  /**
   * The `while data[accessor] != 0` loop of `conditional`: the body starts
   * at `start` on every iteration; `end` is where the last iteration's body
   * stopped, unbound before the first.
   */
  function CondLoop(t: seq<string>, start: nat, a: int, io: Io, fuel: nat, end: Option<nat>): (r: Result<Res, Fault>)
    requires start <= |t|
    requires end.Some? ==> start <= end.value <= |t|
    ensures r.Ok? ==> start <= r.value.index <= |t|
    decreases fuel, |t| - start, 3
  {
    match PyIndex(a, |io.data|)
    case None => Err(Cell(AddressOutOfRange(a)))
    case Some(c) =>
      if io.data[c] == 0 then
        match end
        case None => Err(ZeroOnEntry)
        case Some(e) => Ok(Res(Tok(NOP), e, io))
      else if fuel == 0 then Err(OutOfFuel)
      else
        match CondBody(t, start, a, io, fuel - 1)
        case Err(e) => Err(e)
        case Ok(b) => CondLoop(t, start, a, b.1, fuel - 1, Some(b.0))
  }

  /** The inner `while index < len(tokens)` loop of `conditional`: one pass of the body, up to and including `)`. */
  function CondBody(t: seq<string>, i: nat, a: int, io: Io, fuel: nat): (r: Result<(nat, Io), Fault>)
    requires i <= |t|
    ensures r.Ok? ==> i <= r.value.0 <= |t|
    decreases fuel, |t| - i, 3
  {
    if i == |t| then Ok((i, io))
    else
      match Expr(t, i, io, fuel)
      case Err(e) => Err(e)
      case Ok(x) =>
        if x.value.Tok? && IsBuiltin(x.value.s) then
          match Builtin(x.io, x.value.s, a)
          case Err(e) => Err(Cell(e))
          case Ok(io') => CondBody(t, x.index, a, io', fuel)
        else if x.value == Tok(CONDITIONAL_CLOSE) then Ok((x.index, x.io))
        else
          match IntOf(x.value)
          case None => Err(Cell(NotANumber(x.value.s)))
          case Some(v) =>
            match Store(x.io, a, v)
            case Err(e) => Err(Cell(e))
            case Ok(io') => CondBody(t, x.index, a, io', fuel)
  }

  /** The top-level loop: evaluate expressions one after another and discard their values. */
  function Top(t: seq<string>, i: nat, io: Io, fuel: nat): (r: Result<Io, Fault>)
    requires i <= |t|
    decreases |t| - i
  {
    if i == |t| then Ok(io)
    else
      match Expr(t, i, io, fuel)
      case Err(e) => Err(e)
      case Ok(x) => Top(t, x.index, x.io, fuel)
  }

  /** `run`: the top-level loop on fresh memory. */
  function Execute(t: seq<string>, input: seq<int>, fuel: nat): Result<Io, Fault> {
    Top(t, 0, Fresh(MEMORY_SIZE, input), fuel)
  }

  // ---- what the functions promise ----

  /** `expression` sends `[` to `applicator`, `(` to `conditional`, and returns any other token with the next index. */
  lemma ExprDispatch(t: seq<string>, s: nat, io: Io, fuel: nat)
    requires s < |t|
    ensures t[s] == APPLICATOR_OPEN ==> Expr(t, s, io, fuel) == App(t, s + 1, io, fuel)
    ensures t[s] == CONDITIONAL_OPEN ==> Expr(t, s, io, fuel) == Cond(t, s + 1, io, fuel)
    ensures t[s] != APPLICATOR_OPEN && t[s] != CONDITIONAL_OPEN ==> Expr(t, s, io, fuel) == Ok(Res(Tok(t[s]), s + 1, io))
  {
  }

  /**
   * An applicator's loop ends just past the `]` it reaches, and returns the
   * value of the accessor's cell.
   */
  lemma {:induction false} AppLoopValue(t: seq<string>, i: nat, a: int, io: Io, fuel: nat)
    requires i <= |t| && AppLoop(t, i, a, io, fuel).Ok?
    ensures var r := AppLoop(t, i, a, io, fuel).value;
      && PyIndex(a, |r.io.data|).Some? && r.value == Num(r.io.data[PyIndex(a, |r.io.data|).value])
      && i < r.index && t[r.index - 1] == APPLICATOR_CLOSE
    decreases fuel, |t| - i, 3
  {
    var x := Expr(t, i, io, fuel).value;
    ExprToken(t, i, io, fuel);
    if x.value.Tok? && IsBuiltin(x.value.s) {
      AppLoopValue(t, x.index, a, Builtin(x.io, x.value.s, a).value, fuel);
    } else if x.value != Tok(APPLICATOR_CLOSE) {
      AppLoopValue(t, x.index, a, Store(x.io, a, IntOf(x.value).value).value, fuel);
    }
  }

  /**
   * `applicator` returns `data[accessor]`, the accessor being the number
   * its first expression yields, and the index just past its `]`.
   */
  lemma AppValue(t: seq<string>, s: nat, io: Io, fuel: nat)
    requires s <= |t| && App(t, s, io, fuel).Ok?
    ensures Expr(t, s, io, fuel).Ok? && IntOf(Expr(t, s, io, fuel).value.value).Some?
    ensures var a := IntOf(Expr(t, s, io, fuel).value.value).value;
      var r := App(t, s, io, fuel).value;
      && PyIndex(a, |r.io.data|).Some? && r.value == Num(r.io.data[PyIndex(a, |r.io.data|).value])
      && s < r.index && t[r.index - 1] == APPLICATOR_CLOSE
    decreases fuel, |t| - s, 1
  {
    var x := Expr(t, s, io, fuel).value;
    AppLoopValue(t, x.index, IntOf(x.value).value, x.io, fuel);
  }

  /** A conditional ends with its accessor cell at zero, and returns `NOP`. */
  lemma {:induction false} CondLoopValue(t: seq<string>, start: nat, a: int, io: Io, fuel: nat, end: Option<nat>)
    requires start <= |t| && (end.Some? ==> start <= end.value <= |t|)
    requires CondLoop(t, start, a, io, fuel, end).Ok?
    ensures var r := CondLoop(t, start, a, io, fuel, end).value;
      && r.value == Tok(NOP)
      && PyIndex(a, |r.io.data|).Some? && r.io.data[PyIndex(a, |r.io.data|).value] == 0
    decreases fuel
  {
    var c := PyIndex(a, |io.data|).value;
    if io.data[c] != 0 {
      var b := CondBody(t, start, a, io, fuel - 1).value;
      CondLoopValue(t, start, a, b.1, fuel - 1, Some(b.0));
    }
  }

  /** Where a body pass may stop: at the end of the tokens, or just past a `)` after `start`. */
  predicate BodyEnd(t: seq<string>, start: nat, j: nat) {
    j == |t| || (start < j <= |t| && t[j - 1] == CONDITIONAL_CLOSE)
  }

  /**
   * The loop of `conditional` returns the index where its last body pass
   * stopped: the end of the tokens, or just past a `)`.
   */
  lemma {:induction false} CondLoopEnd(t: seq<string>, start: nat, a: int, io: Io, fuel: nat, end: Option<nat>)
    requires start <= |t| && (end.Some? ==> start <= end.value <= |t| && BodyEnd(t, start, end.value))
    requires CondLoop(t, start, a, io, fuel, end).Ok?
    ensures BodyEnd(t, start, CondLoop(t, start, a, io, fuel, end).value.index)
    decreases fuel, |t| - start, 0
  {
    var c := PyIndex(a, |io.data|).value;
    if io.data[c] != 0 {
      var b := CondBody(t, start, a, io, fuel - 1).value;
      CondBodyEnd(t, start, a, io, fuel - 1);
      CondLoopEnd(t, start, a, b.1, fuel - 1, Some(b.0));
    }
  }

  /** `conditional` returns `NOP`, and the index at the end of the tokens or just past a `)`. */
  lemma CondValue(t: seq<string>, s: nat, io: Io, fuel: nat)
    requires s <= |t| && Cond(t, s, io, fuel).Ok?
    ensures Cond(t, s, io, fuel).value.value == Tok(NOP)
    ensures BodyEnd(t, s, Cond(t, s, io, fuel).value.index)
    decreases fuel, |t| - s, 1
  {
    var x := Expr(t, s, io, fuel).value;
    CondLoopValue(t, x.index, IntOf(x.value).value, x.io, fuel, None);
    CondLoopEnd(t, x.index, IntOf(x.value).value, x.io, fuel, None);
  }

  /**
   * The token values an expression can yield: `NOP` (also what a
   * conditional yields) or the token itself, read at `s`; an integer comes
   * only from an applicator.
   */
  lemma ExprToken(t: seq<string>, s: nat, io: Io, fuel: nat)
    requires s <= |t| && Expr(t, s, io, fuel).Ok?
    ensures var r := Expr(t, s, io, fuel).value;
      && (r.value.Tok? && r.value.s != NOP ==> t[s] == r.value.s && r.index == s + 1)
      && (r.value.Num? ==> t[s] == APPLICATOR_OPEN && t[r.index - 1] == APPLICATOR_CLOSE)
    decreases fuel, |t| - s, 2
  {
    if t[s] == APPLICATOR_OPEN {
      AppValue(t, s + 1, io, fuel);
    } else if t[s] == CONDITIONAL_OPEN {
      CondValue(t, s + 1, io, fuel);
    }
  }

  /** One pass of a conditional's body stops just after a `)` token, or at the end of the tokens. */
  lemma {:induction false} CondBodyEnd(t: seq<string>, i: nat, a: int, io: Io, fuel: nat)
    requires i <= |t| && CondBody(t, i, a, io, fuel).Ok?
    ensures var j := CondBody(t, i, a, io, fuel).value.0;
      j == |t| || (i < j && t[j - 1] == CONDITIONAL_CLOSE)
    decreases fuel, |t| - i, 3
  {
    if i < |t| {
      var x := Expr(t, i, io, fuel).value;
      ExprToken(t, i, io, fuel);
      if x.value.Tok? && IsBuiltin(x.value.s) {
        CondBodyEnd(t, x.index, a, Builtin(x.io, x.value.s, a).value, fuel);
      } else if x.value != Tok(CONDITIONAL_CLOSE) {
        CondBodyEnd(t, x.index, a, Store(x.io, a, IntOf(x.value).value).value, fuel);
      }
    }
  }

  /** A conditional whose cell is zero when it is reached fails on the unbound `loop_end`. */
  lemma ZeroOnEntryFails(t: seq<string>, start: nat, a: int, io: Io, fuel: nat)
    requires start <= |t| && PyIndex(a, |io.data|).Some? && io.data[PyIndex(a, |io.data|).value] == 0
    ensures CondLoop(t, start, a, io, fuel, None) == Err(ZeroOnEntry)
  {
  }

  /** A value that is a top-level token is read and discarded: the top-level loop has no effect on memory for it. */
  lemma TopDiscards(t: seq<string>, i: nat, io: Io, fuel: nat)
    requires i < |t| && t[i] != APPLICATOR_OPEN && t[i] != CONDITIONAL_OPEN
    ensures Top(t, i, io, fuel) == Top(t, i + 1, io, fuel)
  {
  }

  // ---- small programs ----

  /** A decimal token is none of the brackets and no builtin. */
  lemma NumberToken(x: string)
    requires ParseInt(x).Some?
    ensures x != APPLICATOR_OPEN && x != APPLICATOR_CLOSE && x != CONDITIONAL_OPEN && x != CONDITIONAL_CLOSE
    ensures !IsBuiltin(x)
  {
    if |x| == 1 {
      assert IsDigit(x[0]);
    }
  }

  /** `[x [y]]` copies `data[y]` into `data[x]`, and yields the copied value. */
  lemma CopyCell(x: string, y: string, a: nat, b: nat, io: Io, fuel: nat)
    requires ParseInt(x) == Some(a as int) && ParseInt(y) == Some(b as int)
    requires a < |io.data| && b < |io.data|
    ensures Expr([APPLICATOR_OPEN, x, APPLICATOR_OPEN, y, APPLICATOR_CLOSE, APPLICATOR_CLOSE], 0, io, fuel)
      == Ok(Res(Num(io.data[b]), 6, io.(data := io.data[a := io.data[b]])))
  {
    NumberToken(x);
    NumberToken(y);
    var t := [APPLICATOR_OPEN, x, APPLICATOR_OPEN, y, APPLICATOR_CLOSE, APPLICATOR_CLOSE];
    var io' := io.(data := io.data[a := io.data[b]]);
    // the inner applicator `[y]`
    assert Expr(t, 4, io, fuel) == Ok(Res(Tok(APPLICATOR_CLOSE), 5, io));
    assert AppLoop(t, 4, b, io, fuel) == Ok(Res(Num(io.data[b]), 5, io));
    assert Expr(t, 3, io, fuel) == Ok(Res(Tok(y), 4, io));
    assert App(t, 3, io, fuel) == Ok(Res(Num(io.data[b]), 5, io));
    assert Expr(t, 2, io, fuel) == Ok(Res(Num(io.data[b]), 5, io));
    // its value is stored into `x`, then `]`
    assert Store(io, a, io.data[b]) == Ok(io');
    assert Expr(t, 5, io', fuel) == Ok(Res(Tok(APPLICATOR_CLOSE), 6, io'));
    assert AppLoop(t, 5, a, io', fuel) == Ok(Res(Num(io.data[b]), 6, io'));
    assert AppLoop(t, 2, a, io, fuel) == AppLoop(t, 5, a, io', fuel);
    assert Expr(t, 1, io, fuel) == Ok(Res(Tok(x), 2, io));
    assert App(t, 1, io, fuel) == AppLoop(t, 2, a, io, fuel);
  }

  /** `[[x] +]` increments the cell whose address is held in `data[x]`. */
  lemma IndirectIncrement(x: string, a: nat, io: Io, fuel: nat)
    requires ParseInt(x) == Some(a as int) && a < |io.data|
    requires 0 <= io.data[a] < |io.data|
    ensures var p := io.data[a];
      Expr([APPLICATOR_OPEN, APPLICATOR_OPEN, x, APPLICATOR_CLOSE, INCREMENT, APPLICATOR_CLOSE], 0, io, fuel)
      == Ok(Res(Num(io.data[p] + 1), 6, io.(data := io.data[p := io.data[p] + 1])))
  {
    NumberToken(x);
    var t := [APPLICATOR_OPEN, APPLICATOR_OPEN, x, APPLICATOR_CLOSE, INCREMENT, APPLICATOR_CLOSE];
    var p := io.data[a];
    var io' := io.(data := io.data[p := io.data[p] + 1]);
    // the accessor `[x]` yields `data[x]`
    assert Expr(t, 2, io, fuel) == Ok(Res(Tok(x), 3, io));
    assert Expr(t, 3, io, fuel) == Ok(Res(Tok(APPLICATOR_CLOSE), 4, io));
    assert AppLoop(t, 3, a, io, fuel) == Ok(Res(Num(p), 4, io));
    assert App(t, 2, io, fuel) == Ok(Res(Num(p), 4, io));
    assert Expr(t, 1, io, fuel) == Ok(Res(Num(p), 4, io));
    // `+` acts on the cell it names
    assert Expr(t, 4, io, fuel) == Ok(Res(Tok(INCREMENT), 5, io));
    assert Builtin(io, INCREMENT, p) == Ok(io');
    assert Expr(t, 5, io', fuel) == Ok(Res(Tok(APPLICATOR_CLOSE), 6, io'));
    assert AppLoop(t, 5, p, io', fuel) == Ok(Res(Num(io.data[p] + 1), 6, io'));
    assert AppLoop(t, 4, p, io, fuel) == AppLoop(t, 5, p, io', fuel);
    assert App(t, 1, io, fuel) == AppLoop(t, 4, p, io, fuel);
  }

  /** An applicator that runs out of tokens before `]` is the "Error!" outcome. */
  lemma UnclosedApplicator(x: string, a: nat, io: Io, fuel: nat)
    requires ParseInt(x) == Some(a as int) && a < |io.data|
    ensures Expr([APPLICATOR_OPEN, x, INCREMENT], 0, io, fuel) == Err(MissingClose)
    ensures Expr([APPLICATOR_OPEN, x], 0, io, fuel) == Err(MissingClose)
    ensures Expr([APPLICATOR_OPEN], 0, io, fuel) == Err(IndexPastEnd)
  {
    NumberToken(x);
    var t := [APPLICATOR_OPEN, x, INCREMENT];
    var io' := io.(data := io.data[a := io.data[a] + 1]);
    assert Expr(t, 1, io, fuel) == Ok(Res(Tok(x), 2, io));
    assert Expr(t, 2, io, fuel) == Ok(Res(Tok(INCREMENT), 3, io));
    assert Builtin(io, INCREMENT, a) == Ok(io');
    assert AppLoop(t, 3, a, io', fuel) == Err(MissingClose);
    assert AppLoop(t, 2, a, io, fuel) == Err(MissingClose);
    assert App(t, 1, io, fuel) == Err(MissingClose);
    var t2 := [APPLICATOR_OPEN, x];
    assert Expr(t2, 1, io, fuel) == Ok(Res(Tok(x), 2, io));
    assert App(t2, 1, io, fuel) == Err(MissingClose);
    assert App([APPLICATOR_OPEN], 1, io, fuel) == Err(IndexPastEnd);
  }

  /** The decimal tokens the small programs below use. */
  lemma SmallNumbers()
    ensures ParseInt("0") == Some(0) && ParseInt("1") == Some(1) && ParseInt("3") == Some(3)
  {
    assert DigitsValue("0") == 0;
    assert DigitsValue("1") == 1;
    assert DigitsValue("3") == 3;
  }

  /** The conditional `( x . [x -] )`: print the cell, step it down, and store the applicator's result back into it. */
  function Countdown(x: string): seq<string> {
    [CONDITIONAL_OPEN, x, OUTPUT, APPLICATOR_OPEN, x, DECREMENT, APPLICATOR_CLOSE, CONDITIONAL_CLOSE]
  }

  /** The values `k, k-1, …, 1`. */
  function Down(k: nat): (r: seq<int>)
    ensures |r| == k
  {
    if k == 0 then [] else [k as int] + Down(k - 1)
  }

  lemma CountdownAt(t: seq<string>, p: nat, x: string)
    requires p + 8 <= |t| && t[p..p + 8] == Countdown(x)
    ensures t[p + 2] == OUTPUT && t[p + 3] == APPLICATOR_OPEN && t[p + 4] == x
    ensures t[p + 5] == DECREMENT && t[p + 6] == APPLICATOR_CLOSE && t[p + 7] == CONDITIONAL_CLOSE
  {
    forall k | 0 <= k < 8
      ensures t[p + k] == Countdown(x)[k]
    {
      assert t[p..p + 8][k] == t[p + k];
    }
  }

  /** The countdown's `[x -]`: step the cell down and yield it. */
  lemma CountdownStep(t: seq<string>, p: nat, x: string, a: nat, io: Io, fuel: nat)
    requires p + 8 <= |t| && t[p..p + 8] == Countdown(x)
    requires ParseInt(x) == Some(a as int) && a < |io.data|
    ensures Expr(t, p + 3, io, fuel)
      == Ok(Res(Num(io.data[a] - 1), p + 7, io.(data := io.data[a := io.data[a] - 1])))
  {
    NumberToken(x);
    CountdownAt(t, p, x);
    var io' := io.(data := io.data[a := io.data[a] - 1]);
    assert Expr(t, p + 4, io, fuel) == Ok(Res(Tok(x), p + 5, io));
    assert Expr(t, p + 5, io, fuel) == Ok(Res(Tok(DECREMENT), p + 6, io));
    assert Builtin(io, DECREMENT, a) == Ok(io');
    assert Expr(t, p + 6, io', fuel) == Ok(Res(Tok(APPLICATOR_CLOSE), p + 7, io'));
    assert AppLoop(t, p + 6, a, io', fuel) == Ok(Res(Num(io.data[a] - 1), p + 7, io'));
    assert AppLoop(t, p + 5, a, io, fuel) == Ok(Res(Num(io.data[a] - 1), p + 7, io'));
    assert App(t, p + 4, io, fuel) == Ok(Res(Num(io.data[a] - 1), p + 7, io'));
  }

  /** One pass of the countdown body, at position `p`: `.` and the applicator both act on the conditional's cell. */
  lemma CountdownBody(t: seq<string>, p: nat, x: string, a: nat, io: Io, fuel: nat)
    requires p + 8 <= |t| && t[p..p + 8] == Countdown(x)
    requires ParseInt(x) == Some(a as int) && a < |io.data|
    ensures CondBody(t, p + 2, a, io, fuel)
      == Ok((p + 8, Io(io.data[a := io.data[a] - 1], io.input, io.output + [io.data[a]])))
  {
    CountdownAt(t, p, x);
    var io1 := io.(output := io.output + [io.data[a]]);
    var io2 := io1.(data := io.data[a := io.data[a] - 1]);
    // `.` prints the conditional's cell
    assert Expr(t, p + 2, io, fuel) == Ok(Res(Tok(OUTPUT), p + 3, io));
    assert Builtin(io, OUTPUT, a) == Ok(io1);
    assert CondBody(t, p + 2, a, io, fuel) == CondBody(t, p + 3, a, io1, fuel);
    // `[x -]` yields the new value, which is stored back into the same cell, then `)`
    CountdownStep(t, p, x, a, io1, fuel);
    assert io2.data[a := io.data[a] - 1] == io2.data;
    assert Store(io2, a, io.data[a] - 1) == Ok(io2);
    assert CondBody(t, p + 3, a, io1, fuel) == CondBody(t, p + 7, a, io2, fuel);
    assert Expr(t, p + 7, io2, fuel) == Ok(Res(Tok(CONDITIONAL_CLOSE), p + 8, io2));
  }

  /** A non-zero cell runs the body once more; the loop then goes on from where the body stopped. */
  lemma CondLoopAgain(t: seq<string>, start: nat, a: nat, io: Io, fuel: nat, end: Option<nat>, next: nat, io': Io)
    requires start <= |t| && (end.Some? ==> start <= end.value <= |t|)
    requires a < |io.data| && io.data[a] != 0 && fuel > 0
    requires CondBody(t, start, a, io, fuel - 1) == Ok((next, io'))
    ensures CondLoop(t, start, a, io, fuel, end) == CondLoop(t, start, a, io', fuel - 1, Some(next))
  {
    assert PyIndex(a, |io.data|) == Some(a);
  }

  /** One pass of the countdown, seen from the loop: the cell steps down and its old value is printed. */
  lemma CountdownPass(t: seq<string>, p: nat, x: string, a: nat, io: Io, fuel: nat, end: Option<nat>)
    requires p + 8 <= |t| && t[p..p + 8] == Countdown(x)
    requires ParseInt(x) == Some(a as int) && a < |io.data| && io.data[a] != 0 && fuel > 0
    requires end.Some? ==> end.value == p + 8
    ensures CondLoop(t, p + 2, a, io, fuel, end)
      == CondLoop(t, p + 2, a, Io(io.data[a := io.data[a] - 1], io.input, io.output + [io.data[a]]), fuel - 1, Some(p + 8))
  {
    CountdownBody(t, p, x, a, io, fuel - 1);
    CondLoopAgain(t, p + 2, a, io, fuel, end, p + 8, Io(io.data[a := io.data[a] - 1], io.input, io.output + [io.data[a]]));
  }

  /** A zero cell after at least one pass leaves the loop at the `)` the last pass reached. */
  lemma CondLoopExit(t: seq<string>, start: nat, a: nat, io: Io, fuel: nat, end: Option<nat>)
    requires start <= |t| && (end.Some? ==> start <= end.value <= |t|)
    requires a < |io.data| && io.data[a] == 0 && end.Some?
    ensures CondLoop(t, start, a, io, fuel, end) == Ok(Res(Tok(NOP), end.value, io))
  {
    assert PyIndex(a, |io.data|) == Some(a);
  }

  /** Each iteration of the countdown prints the cell; it runs `k` times when the cell starts at `k`. */
  lemma {:induction false} CountdownLoop(t: seq<string>, p: nat, x: string, a: nat, io: Io, fuel: nat, end: Option<nat>, k: nat)
    requires p + 8 <= |t| && t[p..p + 8] == Countdown(x)
    requires ParseInt(x) == Some(a as int) && a < |io.data|
    requires io.data[a] == k && k <= fuel
    requires end.Some? ==> end.value == p + 8
    requires k > 0 || end.Some?
    ensures CondLoop(t, p + 2, a, io, fuel, end)
      == Ok(Res(Tok(NOP), p + 8, Io(io.data[a := 0], io.input, io.output + Down(k))))
    decreases k
  {
    if k == 0 {
      CondLoopExit(t, p + 2, a, io, fuel, end);
      assert io.data[a := 0] == io.data;
      assert io.output + Down(0) == io.output;
    } else {
      var io' := Io(io.data[a := io.data[a] - 1], io.input, io.output + [io.data[a]]);
      CountdownPass(t, p, x, a, io, fuel, end);
      CountdownLoop(t, p, x, a, io', fuel - 1, Some(p + 8), k - 1);
      assert io'.data[a := 0] == io.data[a := 0];
      assert io'.output + Down(k - 1) == io.output + Down(k);
    }
  }

  /** `[0 3] ( 0 . [0 -] )` on fresh memory prints 3, 2, 1 and leaves every cell zero. */
  lemma CountdownProgram(input: seq<int>, fuel: nat)
    requires fuel >= 3
    ensures Execute([APPLICATOR_OPEN, "0", "3", APPLICATOR_CLOSE] + Countdown("0"), input, fuel)
      == Ok(Io(Fresh(MEMORY_SIZE, input).data, input, [3, 2, 1]))
  {
    SmallNumbers();
    NumberToken("0");
    NumberToken("3");
    var t := [APPLICATOR_OPEN, "0", "3", APPLICATOR_CLOSE] + Countdown("0");
    assert |t| == 12;
    assert t[0] == APPLICATOR_OPEN && t[1] == "0" && t[2] == "3" && t[3] == APPLICATOR_CLOSE;
    assert t[4] == CONDITIONAL_OPEN && t[5] == "0";
    assert t[4..12] == Countdown("0");
    var io := Fresh(MEMORY_SIZE, input);
    var io3 := io.(data := io.data[0 := 3]);
    // `[0 3]`
    assert Expr(t, 1, io, fuel) == Ok(Res(Tok("0"), 2, io));
    assert Expr(t, 2, io, fuel) == Ok(Res(Tok("3"), 3, io));
    assert Store(io, 0, 3) == Ok(io3);
    assert Expr(t, 3, io3, fuel) == Ok(Res(Tok(APPLICATOR_CLOSE), 4, io3));
    assert AppLoop(t, 3, 0, io3, fuel) == Ok(Res(Num(3), 4, io3));
    assert AppLoop(t, 2, 0, io, fuel) == Ok(Res(Num(3), 4, io3));
    assert App(t, 1, io, fuel) == Ok(Res(Num(3), 4, io3));
    assert Top(t, 0, io, fuel) == Top(t, 4, io3, fuel);
    // `( 0 . [0 -] )`
    assert Expr(t, 5, io3, fuel) == Ok(Res(Tok("0"), 6, io3));
    assert Cond(t, 5, io3, fuel) == CondLoop(t, 6, 0, io3, fuel, None);
    CountdownLoop(t, 4, "0", 0, io3, fuel, None, 3);
    assert io3.data[0 := 0] == io.data;
    assert Down(3) == [3, 2, 1];
    assert io3.output + Down(3) == [3, 2, 1];
    var done := Io(io.data, input, [3, 2, 1]);
    assert Expr(t, 4, io3, fuel) == Ok(Res(Tok(NOP), 12, done));
    assert Top(t, 4, io3, fuel) == Top(t, 12, done, fuel);
  }

  // ---- the interpreter over a memory array ----

  /** What the methods return; memory stays in the array they update. */
  datatype Reply = Reply(value: Value, index: nat, input: seq<int>, output: seq<int>)

  /** A method's result `r` and the memory `data` it left are the ones the function computes. */
  predicate Agrees(spec: Result<Res, Fault>, r: Result<Reply, Fault>, data: seq<int>) {
    match spec
    case Err(e) => r == Err(e)
    case Ok(x) => r == Ok(Reply(x.value, x.index, x.io.input, x.io.output)) && x.io.data == data
  }

  /** `apply`: a builtin acts on the cell and answers true; any other value is left to the caller. */
  method ApplyValue(data: array<int>, value: Value, a: int, inp: seq<int>, out: seq<int>)
    returns (handled: bool, r: Result<(seq<int>, seq<int>), CellError>)
    modifies data
    ensures handled <==> value.Tok? && IsBuiltin(value.s)
    ensures !handled ==> data[..] == old(data[..]) && r == Ok((inp, out))
    ensures handled ==>
      var s := Builtin(Io(old(data[..]), inp, out), value.s, a);
      && (s.Err? ==> r == Err(s.error))
      && (s.Ok? ==> r.Ok? && s.value == Io(data[..], r.value.0, r.value.1))
  {
    if value.Tok? && IsBuiltin(value.s) {
      r := BuiltinCell(data, value.s, a, inp, out);
      return true, r;
    }
    return false, Ok((inp, out));
  }

  /** `expression`. */
  method Expression(t: seq<string>, s: nat, data: array<int>, inp: seq<int>, out: seq<int>, fuel: nat)
    returns (r: Result<Reply, Fault>)
    requires s <= |t|
    modifies data
    ensures Agrees(Expr(t, s, Io(old(data[..]), inp, out), fuel), r, data[..])
    decreases fuel, |t| - s, 2
  {
    if s == |t| {
      return Err(IndexPastEnd);
    }
    if t[s] == APPLICATOR_OPEN {
      r := Applicator(t, s + 1, data, inp, out, fuel);
    } else if t[s] == CONDITIONAL_OPEN {
      r := Conditional(t, s + 1, data, inp, out, fuel);
    } else {
      r := Ok(Reply(Tok(t[s]), s + 1, inp, out));
    }
  }

  /** `applicator`. */
  method Applicator(t: seq<string>, s: nat, data: array<int>, inp0: seq<int>, out0: seq<int>, fuel: nat)
    returns (r: Result<Reply, Fault>)
    requires s <= |t|
    modifies data
    ensures Agrees(App(t, s, Io(old(data[..]), inp0, out0), fuel), r, data[..])
    decreases fuel, |t| - s, 3
  {
    ghost var io0 := Io(data[..], inp0, out0);
    var acc := Expression(t, s, data, inp0, out0, fuel);
    if acc.Err? {
      return Err(acc.error);
    }
    var accessor := IntOf(acc.value.value);
    if accessor.None? {
      return Err(Cell(NotANumber(acc.value.value.s)));
    }
    var a := accessor.value;
    var index, inp, out := acc.value.index, acc.value.input, acc.value.output;
    while index < |t|
      invariant s < index <= |t|
      invariant App(t, s, io0, fuel) == AppLoop(t, index, a, Io(data[..], inp, out), fuel)
      decreases |t| - index
    {
      var x := Expression(t, index, data, inp, out, fuel);
      if x.Err? {
        return Err(x.error);
      }
      var value := x.value.value;
      index, inp, out := x.value.index, x.value.input, x.value.output;
      var handled, applied := ApplyValue(data, value, a, inp, out);
      if handled {
        if applied.Err? {
          return Err(Cell(applied.error));
        }
        inp, out := applied.value.0, applied.value.1;
      } else if value == Tok(APPLICATOR_CLOSE) {
        var cell := PyIndex(a, data.Length);
        if cell.None? {
          return Err(Cell(AddressOutOfRange(a)));
        }
        return Ok(Reply(Num(data[cell.value]), index, inp, out));
      } else {
        var v := IntOf(value);
        if v.None? {
          return Err(Cell(NotANumber(value.s)));
        }
        var cell := PyIndex(a, data.Length);
        if cell.None? {
          return Err(Cell(AddressOutOfRange(a)));
        }
        data[cell.value] := v.value;
      }
    }
    return Err(MissingClose);
  }

  /** `conditional`. */
  method Conditional(t: seq<string>, s: nat, data: array<int>, inp0: seq<int>, out0: seq<int>, fuel: nat)
    returns (r: Result<Reply, Fault>)
    requires s <= |t|
    modifies data
    ensures Agrees(Cond(t, s, Io(old(data[..]), inp0, out0), fuel), r, data[..])
    decreases fuel, |t| - s, 3
  {
    ghost var io0 := Io(data[..], inp0, out0);
    var acc := Expression(t, s, data, inp0, out0, fuel);
    if acc.Err? {
      return Err(acc.error);
    }
    var accessor := IntOf(acc.value.value);
    if accessor.None? {
      return Err(Cell(NotANumber(acc.value.value.s)));
    }
    var a := accessor.value;
    var loopStart := acc.value.index;
    var inp, out := acc.value.input, acc.value.output;
    var loopEnd: Option<nat> := None;
    var f: nat := fuel;
    while true
      invariant s < loopStart <= |t| && f <= fuel
      invariant loopEnd.Some? ==> loopStart <= loopEnd.value <= |t|
      invariant Cond(t, s, io0, fuel) == CondLoop(t, loopStart, a, Io(data[..], inp, out), f, loopEnd)
      decreases f
    {
      var cell := PyIndex(a, data.Length);
      if cell.None? {
        return Err(Cell(AddressOutOfRange(a)));
      }
      if data[cell.value] == 0 {
        if loopEnd.None? {
          return Err(ZeroOnEntry);
        }
        return Ok(Reply(Tok(NOP), loopEnd.value, inp, out));
      }
      if f == 0 {
        return Err(OutOfFuel);
      }
      f := f - 1;
      var body := ConditionalBody(t, loopStart, a, data, inp, out, f);
      if body.Err? {
        return Err(body.error);
      }
      loopEnd := Some(body.value.0);
      inp, out := body.value.1, body.value.2;
    }
  }

  /** The inner loop of `conditional`: one pass of the body, from `loop_start` to just after `)`. */
  method ConditionalBody(t: seq<string>, i: nat, a: int, data: array<int>, inp0: seq<int>, out0: seq<int>, fuel: nat)
    returns (r: Result<(nat, seq<int>, seq<int>), Fault>)
    requires i <= |t|
    modifies data
    ensures var spec := CondBody(t, i, a, Io(old(data[..]), inp0, out0), fuel);
      && (spec.Err? ==> r == Err(spec.error))
      && (spec.Ok? ==> r == Ok((spec.value.0, spec.value.1.input, spec.value.1.output)) && spec.value.1.data == data[..])
    decreases fuel, |t| - i, 3
  {
    ghost var io0 := Io(data[..], inp0, out0);
    var index, inp, out := i, inp0, out0;
    while index < |t|
      invariant i <= index <= |t|
      invariant CondBody(t, i, a, io0, fuel) == CondBody(t, index, a, Io(data[..], inp, out), fuel)
      decreases |t| - index
    {
      var x := Expression(t, index, data, inp, out, fuel);
      if x.Err? {
        return Err(x.error);
      }
      var value := x.value.value;
      index, inp, out := x.value.index, x.value.input, x.value.output;
      var handled, applied := ApplyValue(data, value, a, inp, out);
      if handled {
        if applied.Err? {
          return Err(Cell(applied.error));
        }
        inp, out := applied.value.0, applied.value.1;
      } else if value == Tok(CONDITIONAL_CLOSE) {
        return Ok((index, inp, out));
      } else {
        var v := IntOf(value);
        if v.None? {
          return Err(Cell(NotANumber(value.s)));
        }
        var cell := PyIndex(a, data.Length);
        if cell.None? {
          return Err(Cell(AddressOutOfRange(a)));
        }
        data[cell.value] := v.value;
      }
    }
    return Ok((index, inp, out));
  }

  /** `run`: 10000 zero cells, then expressions one after another until the tokens run out. */
  method Run(t: seq<string>, input: seq<int>, fuel: nat) returns (r: Result<Io, Fault>)
    ensures r == Execute(t, input, fuel)
  {
    var data := new int[MEMORY_SIZE](_ => 0);
    var inp, out := input, [];
    var index := 0;
    assert data[..] == Fresh(MEMORY_SIZE, input).data;
    while index < |t|
      invariant index <= |t|
      invariant Execute(t, input, fuel) == Top(t, index, Io(data[..], inp, out), fuel)
      decreases |t| - index
    {
      var x := Expression(t, index, data, inp, out, fuel);
      if x.Err? {
        return Err(x.error);
      }
      index, inp, out := x.value.index, x.value.input, x.value.output;
    }
    return Ok(Io(data[..], inp, out));
  }
}
