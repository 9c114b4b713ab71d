/**
 * The stack interpreter of the compiler's source tree. One cursor walks the
 * token list; a value stack collects applicator and conditional contents
 * and a second stack remembers where each conditional started. Memory is
 * `DATA_SIZE + 1` cells. Running a program may not end, so the step count is
 * bounded by a fuel argument.
 */
module Runner {
  import opened Wrappers
  import opened Lists
  import opened Text
  import opened Constants
  import opened Cells

  datatype RunError =
    | StackEmpty          // `stack.pop()` on the empty stack
    | NoAccessor          // `li[0]` / `li[-1]` of an empty applicator or conditional
    | LoopStackEmpty      // `loop_index_stack.pop()` on the empty stack
    | Cell(e: CellError)  // an error raised touching a cell or converting a token

  /** The interpreter's state: memory and streams, the two stacks and the cursor. */
  datatype Machine = Machine(io: Io, stack: seq<Value>, loops: seq<nat>, index: nat)

  datatype Outcome =
    | Halted(m: Machine)     // the cursor ran off the end of the tokens
    | Failed(error: RunError)
    | OutOfFuel(m: Machine)  // still running when the step bound was reached

  const MEMORY_SIZE: nat := DATA_SIZE + 1

  function Initial(input: seq<int>): Machine {
    Machine(Fresh(MEMORY_SIZE, input), [], [], 0)
  }

  /** Every cell other than the one `a` names keeps its value, and memory keeps its size. */
  predicate OnlyCell(io: Io, io': Io, a: int) {
    && |io'.data| == |io.data|
    && forall i :: 0 <= i < |io.data| && PyIndex(a, |io.data|) != Some(i) ==> io'.data[i] == io.data[i]
  }

  /** The printed output only grows and the input is only consumed from the front. */
  predicate StreamsAdvance(io: Io, io': Io) {
    && |io'.input| <= |io.input| && io'.input == io.input[|io.input| - |io'.input|..]
    && |io.output| <= |io'.output| && io'.output[..|io.output|] == io.output
  }

  /** `apply`: a builtin acts on the cell; any other value is stored into it by `int(...)`. */
  function Apply(io: Io, app: Value, a: int): Result<Io, CellError> {
    if app.Tok? && IsBuiltin(app.s) then Builtin(io, app.s, a)
    else
      match IntOf(app)
      case None => Err(NotANumber(app.s))
      case Some(v) => Store(io, a, v)
  }

  /**
   * What `apply` does with a value that is no builtin: `int()` is evaluated
   * first, so a non-number fails before the address is looked at; otherwise
   * exactly the addressed cell takes the value and the streams are untouched.
   */
  lemma ApplyEffect(io: Io, app: Value, a: int)
    ensures app.Tok? && IsBuiltin(app.s) ==> Apply(io, app, a) == Builtin(io, app.s, a)
    ensures !(app.Tok? && IsBuiltin(app.s)) ==>
      var r := Apply(io, app, a);
      && (r.Err? <==> IntOf(app).None? || PyIndex(a, |io.data|).None?)
      && (IntOf(app).None? ==> r == Err(NotANumber(app.s)))
      && (IntOf(app).Some? && PyIndex(a, |io.data|).None? ==> r == Err(AddressOutOfRange(a)))
      && (r.Ok? ==>
        var c := PyIndex(a, |io.data|).value;
        && |r.value.data| == |io.data| && r.value.data[c] == IntOf(app).value
        && (forall i :: 0 <= i < |io.data| && i != c ==> r.value.data[i] == io.data[i])
        && r.value.input == io.input && r.value.output == io.output)
  {
  }

  /** `apply` changes at most the one cell, and only reads input and appends output. */
  lemma ApplyOnlyCell(io: Io, app: Value, a: int)
    requires Apply(io, app, a).Ok?
    ensures OnlyCell(io, Apply(io, app, a).value, a) && StreamsAdvance(io, Apply(io, app, a).value)
  {
    if app.Tok? && IsBuiltin(app.s) {
      BuiltinOnlyCell(io, app.s, a);
    } else {
      var r := Store(io, a, IntOf(app).value).value;
      assert r.input[|r.input| - |r.input|..] == r.input;
      assert r.output[..|r.output|] == r.output;
    }
  }

  lemma BuiltinOnlyCell(io: Io, app: string, a: int)
    requires IsBuiltin(app) && Builtin(io, app, a).Ok?
    ensures OnlyCell(io, Builtin(io, app, a).value, a) && StreamsAdvance(io, Builtin(io, app, a).value)
  {
    var r := Builtin(io, app, a).value;
    if app == INPUT {
      assert r.input == io.input[1..];
      assert r.input == io.input[|io.input| - |r.input|..];
    } else {
      assert r.input[|r.input| - |r.input|..] == r.input;
    }
  }

  lemma OnlyCellTrans(x: Io, y: Io, z: Io, a: int)
    requires OnlyCell(x, y, a) && OnlyCell(y, z, a)
    ensures OnlyCell(x, z, a)
  {
  }

  lemma StreamsAdvanceTrans(x: Io, y: Io, z: Io)
    requires StreamsAdvance(x, y) && StreamsAdvance(y, z)
    ensures StreamsAdvance(x, z)
  {
    assert z.output[..|x.output|] == z.output[..|y.output|][..|x.output|];
    var k := |x.input| - |y.input|;
    assert z.input == y.input[|y.input| - |z.input|..];
    assert y.input == x.input[k..];
  }

  /** `for application in li[1:]: apply(application, accessor)`. */
  function ApplyAll(io: Io, apps: seq<Value>, a: int): (r: Result<Io, CellError>)
    decreases |apps|
  {
    if apps == [] then Ok(io)
    else
      match Apply(io, apps[0], a)
      case Err(e) => Err(e)
      case Ok(io') => ApplyAll(io', apps[1..], a)
  }

  /** Applying a whole applicator changes at most its accessor's cell; input is consumed in order and output only appended. */
  lemma {:induction false} ApplyAllOnlyCell(io: Io, apps: seq<Value>, a: int)
    requires ApplyAll(io, apps, a).Ok?
    ensures OnlyCell(io, ApplyAll(io, apps, a).value, a) && StreamsAdvance(io, ApplyAll(io, apps, a).value)
    decreases |apps|
  {
    if apps != [] {
      var io' := Apply(io, apps[0], a).value;
      ApplyOnlyCell(io, apps[0], a);
      ApplyAllOnlyCell(io', apps[1..], a);
      OnlyCellTrans(io, io', ApplyAll(io, apps, a).value, a);
      StreamsAdvanceTrans(io, io', ApplyAll(io, apps, a).value);
    }
  }

  lemma {:induction false} ApplyAllAppend(io: Io, apps: seq<Value>, x: Value, a: int)
    ensures ApplyAll(io, apps + [x], a) ==
      match ApplyAll(io, apps, a)
      case Err(e) => Err(e)
      case Ok(io') => Apply(io', x, a)
    decreases |apps|
  {
    if apps == [] {
      assert [] + [x] == [x] && [x][1..] == [];
      match Apply(io, x, a)
      case Err(_) =>
      case Ok(io') =>
    } else {
      assert (apps + [x])[0] == apps[0];
      assert (apps + [x])[1..] == apps[1..] + [x];
      match Apply(io, apps[0], a)
      case Err(_) =>
      case Ok(io') => ApplyAllAppend(io', apps[1..], x, a);
    }
  }

  /** The position of the first `)` at or after `i`. */
  function NextClose(tokens: seq<string>, i: nat): (r: Option<nat>)
    ensures r.Some? ==> i <= r.value < |tokens| && tokens[r.value] == CONDITIONAL_CLOSE
    ensures r.Some? ==> forall k :: i <= k < r.value ==> tokens[k] != CONDITIONAL_CLOSE
    ensures r.None? <==> forall k :: i <= k < |tokens| ==> tokens[k] != CONDITIONAL_CLOSE
    decreases |tokens| - i
  {
    if i >= |tokens| then None
    else if tokens[i] == CONDITIONAL_CLOSE then Some(i)
    else NextClose(tokens, i + 1)
  }

  predicate ConditionalTop(stack: seq<Value>) {
    stack != [] && stack[|stack| - 1] == Tok(CONDITIONAL_OPEN)
  }

  /**
   * `push`: a value is pushed, except that an integer whose cell is zero,
   * arriving right after `(`, cancels that conditional — `(` is popped and
   * the cursor moves to the next `)`. Every exception inside (`int()` of a
   * non-number, an address out of range, running off the end while looking
   * for `)`) is caught and the value pushed after all.
   */
  function Push(tokens: seq<string>, m: Machine, v: Value): (m': Machine)
    ensures m'.io == m.io && m'.loops == m.loops
  {
    var pushed := m.(stack := m.stack + [v]);
    match IntOf(v)
    case None => pushed
    case Some(n) =>
      if |m.stack| == 0 then pushed
      else match PyIndex(n, |m.io.data|)
        case None => pushed
        case Some(c) =>
          if m.io.data[c] == 0 && ConditionalTop(m.stack) then
            var below := m.stack[..|m.stack| - 1];
            match NextClose(tokens, m.index)
            case Some(j) => m.(stack := below, index := j)
            case None => m.(stack := below + [v], index := |tokens|)
          else pushed
  }

  function Advance(m: Machine): Machine {
    m.(index := m.index + 1)
  }

  /** One iteration of the main loop, at the token under the cursor. */
  function Step(tokens: seq<string>, m: Machine): Result<Machine, RunError>
    requires m.index < |tokens|
  {
    var t := tokens[m.index];
    if t == APPLICATOR_CLOSE then CloseApplicatorStep(tokens, m)
    else if t == CONDITIONAL_CLOSE then CloseConditionalStep(m)
    else if t == CONDITIONAL_OPEN then
      Ok(Machine(m.io, m.stack + [Tok(t)], m.loops + [m.index], m.index + 1))
    else
      Ok(Advance(Push(tokens, m, Tok(t))))
  }

  /** The `]` branch: pop back to `[`, apply, push the accessor. */
  function CloseApplicatorStep(tokens: seq<string>, m: Machine): Result<Machine, RunError> {
    match PopUntil(m.stack, Tok(APPLICATOR_OPEN))
    case None => Err(StackEmpty)
    case Some(p) =>
      if p.0 == [] then Err(NoAccessor)
      else match IntOf(p.0[0])
        case None => Err(Cell(NotANumber(p.0[0].s)))
        case Some(a) =>
          match ApplyAll(m.io, p.0[1..], a)
          case Err(e) => Err(Cell(e))
          case Ok(io) => Ok(Advance(Push(tokens, Machine(io, p.1, m.loops, m.index), Num(a))))
  }

  /** The `)` branch: pop back to `(`, then loop again or fall through. */
  function CloseConditionalStep(m: Machine): Result<Machine, RunError> {
    match PopUntil(m.stack, Tok(CONDITIONAL_OPEN))
    case None => Err(StackEmpty)
    case Some(p) =>
      if p.0 == [] then Err(NoAccessor)
      else match IntOf(p.0[0])
        case None => Err(Cell(NotANumber(p.0[0].s)))
        case Some(a) =>
          match PyIndex(a, |m.io.data|)
          case None => Err(Cell(AddressOutOfRange(a)))
          case Some(c) =>
            if m.io.data[c] != 0 then
              if m.loops == [] then Err(LoopStackEmpty)
              else Ok(Machine(m.io, p.1, m.loops[..|m.loops| - 1], m.loops[|m.loops| - 1]))
            else Ok(Machine(m.io, p.1, m.loops, m.index + 1))
  }

  /** The main loop, for at most `fuel` iterations. */
  function Exec(tokens: seq<string>, m: Machine, fuel: nat): Outcome
    decreases fuel, 0
  {
    if m.index >= |tokens| then Halted(m)
    else if fuel == 0 then OutOfFuel(m)
    else Continue(tokens, Step(tokens, m), fuel - 1)
  }

  /** After one iteration: stop on its error, or go on from the state it reached. */
  function Continue(tokens: seq<string>, next: Result<Machine, RunError>, fuel: nat): Outcome
    decreases fuel, 1
  {
    match next
    case Err(e) => Failed(e)
    case Ok(m') => Exec(tokens, m', fuel)
  }

  // ---- the interpreter over a memory array ----

  function State(data: seq<int>, input: seq<int>, output: seq<int>, stack: seq<Value>, loops: seq<nat>, index: nat): Machine {
    Machine(Io(data, input, output), stack, loops, index)
  }

  /** `run`. */
  method Run(tokens: seq<string>, input: seq<int>, fuel: nat) returns (r: Outcome)
    ensures r == Exec(tokens, Initial(input), fuel)
  {
    var data := new int[MEMORY_SIZE](_ => 0);
    var stack: seq<Value> := [];
    var loops: seq<nat> := [];
    var index: nat := 0;
    var inp := input;
    var out: seq<int> := [];
    var f := fuel;
    assert data[..] == Initial(input).io.data;
    while index < |tokens|
      invariant Exec(tokens, Initial(input), fuel) == Exec(tokens, State(data[..], inp, out, stack, loops, index), f)
      decreases f
    {
      if f == 0 {
        return OutOfFuel(State(data[..], inp, out, stack, loops, index));
      }
      var next := StepOn(tokens, data, inp, out, stack, loops, index);
      if next.Err? {
        return Failed(next.error);
      }
      stack, loops, index, inp, out := next.value.stack, next.value.loops, next.value.index, next.value.io.input, next.value.io.output;
      f := f - 1;
    }
    return Halted(State(data[..], inp, out, stack, loops, index));
  }

  /** One iteration of the main loop over the memory array. */
  method StepOn(tokens: seq<string>, data: array<int>, inp: seq<int>, out: seq<int>,
                stack: seq<Value>, loops: seq<nat>, index: nat)
    returns (next: Result<Machine, RunError>)
    requires index < |tokens|
    modifies data
    ensures next == Step(tokens, State(old(data[..]), inp, out, stack, loops, index))
    ensures next.Ok? ==> next.value.io.data == data[..]
  {
    var token := tokens[index];
    if token == APPLICATOR_CLOSE {
      next := CloseApplicator(tokens, data, inp, out, stack, loops, index);
    } else if token == CONDITIONAL_CLOSE {
      next := CloseConditional(tokens, data, inp, out, stack, loops, index);
    } else if token == CONDITIONAL_OPEN {
      next := Ok(State(data[..], inp, out, stack + [Tok(token)], loops + [index], index + 1));
    } else {
      var stack', index' := PushValue(tokens, data, Io(data[..], inp, out), stack, loops, index, Tok(token));
      next := Ok(State(data[..], inp, out, stack', loops, index' + 1));
    }
  }

  /** The `]` branch of the main loop. */
  method CloseApplicator(tokens: seq<string>, data: array<int>, inp: seq<int>, out: seq<int>,
                         stack0: seq<Value>, loops: seq<nat>, index: nat)
    returns (r: Result<Machine, RunError>)
    requires index < |tokens|
    modifies data
    ensures r == CloseApplicatorStep(tokens, State(old(data[..]), inp, out, stack0, loops, index))
    ensures r.Ok? ==> r.value.io.data == data[..]
  {
    var li, stack := PopTo(stack0, Tok(APPLICATOR_OPEN));
    if li.None? {
      return Err(StackEmpty);
    }
    var items := li.value;
    if items == [] {
      return Err(NoAccessor);
    }
    var acc := IntOf(items[0]);
    if acc.None? {
      return Err(Cell(NotANumber(items[0].s)));
    }
    var accessor := acc.value;
    StepCloseApplicatorApplied(tokens, State(data[..], inp, out, stack0, loops, index), items, stack, accessor);
    var applied := ApplyEach(data, items[1..], accessor, inp, out);
    if applied.Err? {
      return Err(Cell(applied.error));
    }
    ghost var io := Io(data[..], applied.value.0, applied.value.1);
    var stack', index' := PushValue(tokens, data, io, stack, loops, index, Num(accessor));
    assert State(data[..], applied.value.0, applied.value.1, stack', loops, index' + 1) == Advance(Machine(io, stack', loops, index'));
    r := Ok(State(data[..], applied.value.0, applied.value.1, stack', loops, index' + 1));
  }

  /** The `]` step once the pop and the accessor are known: it fails as the applications do, or pushes the accessor. */
  lemma StepCloseApplicatorApplied(tokens: seq<string>, m: Machine, items: seq<Value>, stack: seq<Value>, a: int)
    requires PopUntil(m.stack, Tok(APPLICATOR_OPEN)) == Some((items, stack))
    requires items != [] && IntOf(items[0]) == Some(a)
    ensures var s := ApplyAll(m.io, items[1..], a);
      && (s.Err? ==> CloseApplicatorStep(tokens, m) == Err(Cell(s.error)))
      && (s.Ok? ==> CloseApplicatorStep(tokens, m) == Ok(Advance(Push(tokens, Machine(s.value, stack, m.loops, m.index), Num(a)))))
  {
  }

  /** The `)` branch of the main loop. */
  method CloseConditional(tokens: seq<string>, data: array<int>, inp: seq<int>, out: seq<int>,
                          stack0: seq<Value>, loops: seq<nat>, index: nat)
    returns (r: Result<Machine, RunError>)
    ensures r == CloseConditionalStep(State(data[..], inp, out, stack0, loops, index))
    ensures r.Ok? ==> r.value.io.data == data[..]
  {
    var li, stack := PopTo(stack0, Tok(CONDITIONAL_OPEN));
    if li.None? {
      return Err(StackEmpty);
    }
    var items := li.value;
    if items == [] {
      return Err(NoAccessor);
    }
    var acc := IntOf(items[0]);
    if acc.None? {
      return Err(Cell(NotANumber(items[0].s)));
    }
    var cell := PyIndex(acc.value, data.Length);
    if cell.None? {
      return Err(Cell(AddressOutOfRange(acc.value)));
    }
    if data[cell.value] != 0 {
      if loops == [] {
        return Err(LoopStackEmpty);
      }
      return Ok(State(data[..], inp, out, stack, loops[..|loops| - 1], loops[|loops| - 1]));
    }
    return Ok(State(data[..], inp, out, stack, loops, index + 1));
  }

  /** `apply` on the memory array. */
  method ApplyCell(data: array<int>, app: Value, a: int, inp: seq<int>, out: seq<int>)
    returns (r: Result<(seq<int>, seq<int>), CellError>)
    modifies data
    ensures var s := Apply(Io(old(data[..]), inp, out), app, a);
      && (s.Err? ==> r == Err(s.error))
      && (s.Ok? ==> r.Ok? && s.value == Io(data[..], r.value.0, r.value.1))
  {
    if app.Tok? && IsBuiltin(app.s) {
      r := BuiltinCell(data, app.s, a, inp, out);
      return;
    }
    var v := IntOf(app);
    if v.None? {
      return Err(NotANumber(app.s));
    }
    var cell := PyIndex(a, data.Length);
    if cell.None? {
      return Err(AddressOutOfRange(a));
    }
    data[cell.value] := v.value;
    return Ok((inp, out));
  }

  /** The `for application in li[1:]` loop. */
  method ApplyEach(data: array<int>, apps: seq<Value>, a: int, inp0: seq<int>, out0: seq<int>)
    returns (r: Result<(seq<int>, seq<int>), CellError>)
    modifies data
    ensures var s := ApplyAll(Io(old(data[..]), inp0, out0), apps, a);
      && (s.Err? ==> r == Err(s.error))
      && (s.Ok? ==> r.Ok? && s.value == Io(data[..], r.value.0, r.value.1))
  {
    ghost var start := Io(data[..], inp0, out0);
    var inp, out := inp0, out0;
    for j := 0 to |apps|
      invariant ApplyAll(start, apps[..j], a) == Ok(Io(data[..], inp, out))
    {
      assert apps[..j + 1] == apps[..j] + [apps[j]];
      ApplyAllAppend(start, apps[..j], apps[j], a);
      var s := ApplyCell(data, apps[j], a, inp, out);
      if s.Err? {
        ApplyAllPrefixErr(start, apps, j + 1, a);
        return Err(s.error);
      }
      inp, out := s.value.0, s.value.1;
    }
    assert apps[..|apps|] == apps;
    return Ok((inp, out));
  }

  /** Once a prefix of the applications fails, the whole list fails with that error. */
  lemma {:induction false} ApplyAllPrefixErr(io: Io, apps: seq<Value>, j: nat, a: int)
    requires j <= |apps| && ApplyAll(io, apps[..j], a).Err?
    ensures ApplyAll(io, apps, a) == ApplyAll(io, apps[..j], a)
    decreases |apps| - j
  {
    if j < |apps| {
      assert apps[..j + 1] == apps[..j] + [apps[j]];
      ApplyAllAppend(io, apps[..j], apps[j], a);
      ApplyAllPrefixErr(io, apps, j + 1, a);
    } else {
      assert apps[..j] == apps;
    }
  }

  /** `push` over the memory array: it reads memory and moves the cursor. */
  method PushValue(tokens: seq<string>, data: array<int>, ghost io: Io, stack0: seq<Value>, ghost loops: seq<nat>,
                   index0: nat, v: Value)
    returns (stack: seq<Value>, index: nat)
    requires index0 <= |tokens| && io.data == data[..]
    ensures Push(tokens, Machine(io, stack0, loops, index0), v) == Machine(io, stack, loops, index)
  {
    stack, index := stack0 + [v], index0;
    var n := IntOf(v);
    if n.None? || |stack0| == 0 {
      return;
    }
    var cell := PyIndex(n.value, data.Length);
    if cell.None? || data[cell.value] != 0 || !ConditionalTop(stack0) {
      return;
    }
    stack := stack0[..|stack0| - 1];
    while index < |tokens| && tokens[index] != CONDITIONAL_CLOSE
      invariant index0 <= index <= |tokens|
      invariant NextClose(tokens, index0) == NextClose(tokens, index)
      decreases |tokens| - index
    {
      index := index + 1;
    }
    if index == |tokens| {
      // `tokens[index]` raised IndexError; the handler pushes the value.
      stack := stack + [v];
    }
  }

  // ---- properties of one step ----

  /** Memory starts as `DATA_SIZE + 1` zero cells, so address `DATA_SIZE` is still inside it. */
  lemma InitialMemory(input: seq<int>)
    ensures |Initial(input).io.data| == DATA_SIZE + 1
    ensures forall i :: 0 <= i < |Initial(input).io.data| ==> Initial(input).io.data[i] == 0
    ensures PyIndex(DATA_SIZE, MEMORY_SIZE) == Some(DATA_SIZE) && PyIndex(DATA_SIZE + 1, MEMORY_SIZE).None?
    ensures Initial(input).stack == [] && Initial(input).loops == [] && Initial(input).index == 0
  {
  }

  /** `(` pushes its own position onto the loop stack and the marker onto the value stack. */
  lemma StepOpen(tokens: seq<string>, m: Machine)
    requires m.index < |tokens| && tokens[m.index] == CONDITIONAL_OPEN
    ensures Step(tokens, m) == Ok(Machine(m.io, m.stack + [Tok(CONDITIONAL_OPEN)], m.loops + [m.index], m.index + 1))
  {
  }

  /**
   * `push` either leaves the cursor alone and pushes the value, or — an
   * integer naming a zero cell right after `(` — drops the `(` and moves
   * the cursor to the next `)`.
   */
  lemma PushCases(tokens: seq<string>, m: Machine, v: Value)
    requires m.index <= |tokens|
    ensures var skip := IntOf(v).Some? && m.stack != [] && PyIndex(IntOf(v).value, |m.io.data|).Some?
              && m.io.data[PyIndex(IntOf(v).value, |m.io.data|).value] == 0 && ConditionalTop(m.stack);
      && (!skip ==> Push(tokens, m, v) == m.(stack := m.stack + [v]))
      && (skip && NextClose(tokens, m.index).Some? ==>
            Push(tokens, m, v) == m.(stack := m.stack[..|m.stack| - 1], index := NextClose(tokens, m.index).value))
      && (skip && NextClose(tokens, m.index).None? ==>
            Push(tokens, m, v) == m.(stack := m.stack[..|m.stack| - 1] + [v], index := |tokens|))
  {
  }

  /** A token that is not a decimal integer is always pushed. */
  lemma PushToken(tokens: seq<string>, m: Machine, t: string)
    requires ParseInt(t).None?
    ensures Push(tokens, m, Tok(t)) == m.(stack := m.stack + [Tok(t)])
  {
  }

  /**
   * `]`: the entries back to the nearest `[` are taken in source order, the
   * first is the accessor, the rest are applied to its cell in order, and
   * the accessor itself (not its cell) is pushed.
   */
  lemma StepCloseApplicator(tokens: seq<string>, m: Machine, rest: seq<Value>, acc: Value, apps: seq<Value>, a: int)
    requires m.index < |tokens| && tokens[m.index] == APPLICATOR_CLOSE
    requires m.stack == rest + [Tok(APPLICATOR_OPEN)] + ([acc] + apps)
    requires Tok(APPLICATOR_OPEN) !in [acc] + apps
    requires IntOf(acc) == Some(a)
    ensures ApplyAll(m.io, apps, a).Err? ==> Step(tokens, m) == Err(Cell(ApplyAll(m.io, apps, a).error))
    ensures ApplyAll(m.io, apps, a).Ok? ==>
      Step(tokens, m) == Ok(Advance(Push(tokens, Machine(ApplyAll(m.io, apps, a).value, rest, m.loops, m.index), Num(a))))
  {
    PopUntilSplit(rest, Tok(APPLICATOR_OPEN), [acc] + apps);
    assert ([acc] + apps)[0] == acc && ([acc] + apps)[1..] == apps;
  }

  /** `]` with no `[` below it fails popping the empty stack, and `[]` has no accessor. */
  lemma StepCloseApplicatorErrors(tokens: seq<string>, m: Machine)
    requires m.index < |tokens| && tokens[m.index] == APPLICATOR_CLOSE
    ensures Tok(APPLICATOR_OPEN) !in m.stack ==> Step(tokens, m) == Err(StackEmpty)
    ensures m.stack != [] && m.stack[|m.stack| - 1] == Tok(APPLICATOR_OPEN) ==> Step(tokens, m) == Err(NoAccessor)
  {
    if m.stack != [] && m.stack[|m.stack| - 1] == Tok(APPLICATOR_OPEN) {
      PopUntilSplit(m.stack[..|m.stack| - 1], Tok(APPLICATOR_OPEN), []);
      assert m.stack[..|m.stack| - 1] + [Tok(APPLICATOR_OPEN)] + [] == m.stack;
    }
  }

  /**
   * `)`: a nonzero accessor cell sends the cursor back to the position on
   * top of the loop stack (the `(` that opened the loop); a zero cell moves
   * the cursor past `)` and leaves the loop stack as it is.
   */
  lemma StepCloseConditional(tokens: seq<string>, m: Machine, rest: seq<Value>, acc: Value, body: seq<Value>, a: int, c: nat)
    requires m.index < |tokens| && tokens[m.index] == CONDITIONAL_CLOSE
    requires m.stack == rest + [Tok(CONDITIONAL_OPEN)] + ([acc] + body)
    requires Tok(CONDITIONAL_OPEN) !in [acc] + body
    requires IntOf(acc) == Some(a) && PyIndex(a, |m.io.data|) == Some(c)
    ensures m.io.data[c] != 0 && m.loops != [] ==>
      Step(tokens, m) == Ok(Machine(m.io, rest, m.loops[..|m.loops| - 1], m.loops[|m.loops| - 1]))
    ensures m.io.data[c] != 0 && m.loops == [] ==> Step(tokens, m) == Err(LoopStackEmpty)
    ensures m.io.data[c] == 0 ==> Step(tokens, m) == Ok(Machine(m.io, rest, m.loops, m.index + 1))
  {
    PopUntilSplit(rest, Tok(CONDITIONAL_OPEN), [acc] + body);
    assert ([acc] + body)[0] == acc;
  }

  /** Only `]` touches memory and the streams, and then only the accessor's cell, consuming input in order. */
  lemma StepMemory(tokens: seq<string>, m: Machine)
    requires m.index < |tokens| && Step(tokens, m).Ok?
    ensures tokens[m.index] != APPLICATOR_CLOSE ==> Step(tokens, m).value.io == m.io
    ensures StreamsAdvance(m.io, Step(tokens, m).value.io)
    ensures |Step(tokens, m).value.io.data| == |m.io.data|
  {
    var m' := Step(tokens, m).value;
    if tokens[m.index] == APPLICATOR_CLOSE {
      var p := PopUntil(m.stack, Tok(APPLICATOR_OPEN)).value;
      var a := IntOf(p.0[0]).value;
      ApplyAllOnlyCell(m.io, p.0[1..], a);
    } else {
      assert m'.io == m.io;
      assert m.io.input[|m.io.input| - |m.io.input|..] == m.io.input;
      assert m.io.output[..|m.io.output|] == m.io.output;
    }
  }

  // ---- properties of whole runs ----

  /** More fuel never changes a run that has already ended. */
  lemma {:induction false} ExecMonotone(tokens: seq<string>, m: Machine, fuel: nat, more: nat)
    requires !Exec(tokens, m, fuel).OutOfFuel?
    requires fuel <= more
    ensures Exec(tokens, m, more) == Exec(tokens, m, fuel)
    decreases fuel, 0
  {
    if m.index < |tokens| && fuel > 0 {
      ContinueMonotone(tokens, Step(tokens, m), fuel - 1, more - 1);
    }
  }

  lemma {:induction false} ContinueMonotone(tokens: seq<string>, next: Result<Machine, RunError>, fuel: nat, more: nat)
    requires !Continue(tokens, next, fuel).OutOfFuel?
    requires fuel <= more
    ensures Continue(tokens, next, more) == Continue(tokens, next, fuel)
    decreases fuel, 1
  {
    if next.Ok? {
      ExecMonotone(tokens, next.value, fuel, more);
    }
  }

  /** A run only ever appends to the output and reads input from the front. */
  lemma {:induction false} ExecStreams(tokens: seq<string>, m: Machine, fuel: nat)
    requires Exec(tokens, m, fuel).Halted?
    ensures StreamsAdvance(m.io, Exec(tokens, m, fuel).m.io)
    ensures |Exec(tokens, m, fuel).m.io.data| == |m.io.data|
    decreases fuel
  {
    if m.index >= |tokens| {
      assert m.io.input[|m.io.input| - |m.io.input|..] == m.io.input;
      assert m.io.output[..|m.io.output|] == m.io.output;
    } else {
      var m' := Step(tokens, m).value;
      StepMemory(tokens, m);
      ExecStreams(tokens, m', fuel - 1);
      StreamsAdvanceTrans(m.io, m'.io, Exec(tokens, m, fuel).m.io);
    }
  }
}
