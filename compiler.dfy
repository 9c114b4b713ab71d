/**
 * The C back end. One stack-driven pass over a token list produces the C
 * statements of a function body; `Compile` assembles the include
 * boilerplate, one declaration and one definition per application, and
 * `main`. Only the emitted text is modelled, not what the C code does.
 */
module Compiler {
  import opened Wrappers
  import opened Text
  import opened Lists
  import opened Constants

  datatype CompileError =
    | StackEmpty        // a pop from the empty stack (unbalanced `]` or `)`)
    | EmptyApplicator   // `[ ]`: no accessor to take
    | MissingMain       // the table has no `main` entry

  type Table = map<string, seq<string>>

  const MAIN: string := "main"
  const LOOP_OPEN: string := "while(1){"
  const LOOP_CLOSE: string := "}"

  /** The C lvalue of the cell an accessor names. */
  function Element(accessor: string): string {
    "d0[" + accessor + "]"
  }

  /** The break guard at the top of a loop: leave when `cell` is zero. */
  function Guard(cell: string): string {
    "if(!" + cell + "){break;}"
  }

  /** A C statement line: it ends with `;`. */
  predicate IsStatement(line: string) {
    line != [] && line[|line| - 1] == ';'
  }

  /**
   * The statement that applying `app` to the cell named by `acc` emits:
   * nothing for `_`, a fixed statement for each other builtin, a call for a
   * user application and an assignment otherwise.
   */
  function Emit(app: string, acc: string, funcs: set<string>): (lines: seq<string>)
    ensures |lines| <= 1
    ensures lines == [] <==> app == NOP
    ensures forall k :: 0 <= k < |lines| ==> IsStatement(lines[k])
  {
    var ele := Element(acc);
    if app == NOP then []
    else if app == INCREMENT then [ele + "++;"]
    else if app == DECREMENT then [ele + "--;"]
    else if app == OUTPUT then ["putchar(" + ele + ");"]
    else if app == INPUT then [ele + " = getchar();"]
    else if app in funcs then [app + "(" + acc + ");"]
    else [ele + " = " + app + ";"]
  }

  /** `apply`: append the statement for one application to the output. */
  method Apply(output: seq<string>, application: string, accessor: string, funcs: set<string>)
    returns (out: seq<string>)
    ensures out == output + Emit(application, accessor, funcs)
  {
    var ele := Element(accessor);
    out := output;
    if application == NOP {
    } else if application == INCREMENT {
      out := out + [ele + "++;"];
    } else if application == DECREMENT {
      out := out + [ele + "--;"];
    } else if application == OUTPUT {
      out := out + ["putchar(" + ele + ");"];
    } else if application == INPUT {
      out := out + [ele + " = getchar();"];
    } else if application in funcs {
      out := out + [application + "(" + accessor + ");"];
    } else {
      out := out + [ele + " = " + application + ";"];
    }
  }

  /** The statements for applying each of `apps` in turn to the same cell. */
  function EmitAll(apps: seq<string>, acc: string, funcs: set<string>): (lines: seq<string>)
    ensures forall k :: 0 <= k < |lines| ==> IsStatement(lines[k])
  {
    if apps == [] then []
    else
      var first := Emit(apps[0], acc, funcs);
      var rest := EmitAll(apps[1..], acc, funcs);
      assert forall k :: 0 <= k < |first + rest| ==>
        (first + rest)[k] == if k < |first| then first[k] else rest[k - |first|];
      first + rest
  }

  lemma {:induction false} EmitAllAppend(apps: seq<string>, x: string, acc: string, funcs: set<string>)
    ensures EmitAll(apps + [x], acc, funcs) == EmitAll(apps, acc, funcs) + Emit(x, acc, funcs)
    decreases |apps|
  {
    if apps == [] {
      assert [] + [x] == [x];
      assert [x][1..] == [];
    } else {
      assert (apps + [x])[0] == apps[0];
      assert (apps + [x])[1..] == apps[1..] + [x];
      EmitAllAppend(apps[1..], x, acc, funcs);
    }
  }

  // ---- compile_body ----

  /** The state of the pass: the value stack and the statements emitted so far. */
  datatype Body = Body(stack: seq<string>, output: seq<string>)

  predicate ConditionalTop(stack: seq<string>) {
    stack != [] && stack[|stack| - 1] == CONDITIONAL_OPEN
  }

  /** One token of `compile_body`. */
  function Step(b: Body, token: string, funcs: set<string>): Result<Body, CompileError> {
    if token == APPLICATOR_CLOSE then
      match PopUntil(b.stack, APPLICATOR_OPEN)
      case None => Err(StackEmpty)
      case Some(p) =>
        var items := p.0;
        var rest := p.1;
        if items == [] then Err(EmptyApplicator)
        else
          var acc := items[0];
          var guard := if ConditionalTop(rest) then [Guard(Element(Element(acc)))] else [];
          Ok(Body(rest + [Element(acc)], b.output + EmitAll(items[1..], acc, funcs) + guard))
    else if token == CONDITIONAL_CLOSE then
      match PopUntil(b.stack, CONDITIONAL_OPEN)
      case None => Err(StackEmpty)
      case Some(p) => Ok(Body(p.1, b.output + [LOOP_CLOSE]))
    else if token == CONDITIONAL_OPEN then
      Ok(Body(b.stack + [token], b.output + [LOOP_OPEN]))
    else if token == APPLICATOR_OPEN then
      Ok(Body(b.stack + [token], b.output))
    else
      var guard := if ConditionalTop(b.stack) then [Guard(Element(token))] else [];
      Ok(Body(b.stack + [token], b.output + guard))
  }

  function Run(ts: seq<string>, funcs: set<string>, b: Body): Result<Body, CompileError>
    decreases |ts|
  {
    if ts == [] then Ok(b)
    else
      match Step(b, ts[0], funcs)
      case Err(e) => Err(e)
      case Ok(b') => Run(ts[1..], funcs, b')
  }

  /** The text `compile_body` returns: the statements joined by newlines. */
  function BodyText(ts: seq<string>, funcs: set<string>): Result<string, CompileError> {
    match Run(ts, funcs, Body([], []))
    case Err(e) => Err(e)
    case Ok(b) => Ok(Lines(b.output))
  }

  lemma RunAt(ts: seq<string>, i: nat, funcs: set<string>, b: Body)
    requires i < |ts|
    ensures Run(ts[i..], funcs, b) ==
      match Step(b, ts[i], funcs)
      case Err(e) => Err(e)
      case Ok(b') => Run(ts[i + 1..], funcs, b')
  {
    assert ts[i..][0] == ts[i] && ts[i..][1..] == ts[i + 1..];
  }

  /** `compile_body`. */
  method CompileBody(tokens: seq<string>, funcs: set<string>) returns (r: Result<string, CompileError>)
    ensures r == BodyText(tokens, funcs)
  {
    var output: seq<string> := [];
    var stack: seq<string> := [];
    for i := 0 to |tokens|
      invariant Run(tokens, funcs, Body([], [])) == Run(tokens[i..], funcs, Body(stack, output))
    {
      RunAt(tokens, i, funcs, Body(stack, output));
      var token := tokens[i];
      ghost var before := Body(stack, output);
      var next;
      if token == APPLICATOR_CLOSE {
        next := CloseApplicatorStep(stack, output, funcs);
      } else if token == CONDITIONAL_CLOSE {
        next := CloseConditionalStep(stack, output, funcs);
      } else if token == CONDITIONAL_OPEN {
        next := Ok(Body(stack + [token], output + [LOOP_OPEN]));
      } else if token == APPLICATOR_OPEN {
        next := Ok(Body(stack + [token], output));
      } else {
        // A token right after `(` is that conditional's accessor.
        var guarded := output;
        assert output + [] == output;
        if ConditionalTop(stack) {
          guarded := output + [Guard(Element(token))];
        }
        next := Ok(Body(stack + [token], guarded));
      }
      assert next == Step(before, token, funcs);
      if next.Err? {
        return Err(next.error);
      }
      stack, output := next.value.stack, next.value.output;
    }
    return Ok(Lines(output));
  }

  /** The `]` case: pop the applicator, apply each later entry to the first, guard, push the cell. */
  method CloseApplicatorStep(stack0: seq<string>, output0: seq<string>, funcs: set<string>)
    returns (r: Result<Body, CompileError>)
    ensures r == Step(Body(stack0, output0), APPLICATOR_CLOSE, funcs)
  {
    var li, stack := PopTo(stack0, APPLICATOR_OPEN);
    if li.None? {
      return Err(StackEmpty);
    }
    var items := li.value;
    if items == [] {
      return Err(EmptyApplicator);
    }
    var accessor := items[0];
    var output := ApplyAll(output0, items, accessor, funcs);
    assert output + [] == output;
    if ConditionalTop(stack) {
      output := output + [Guard(Element(Element(accessor)))];
    }
    return Ok(Body(stack + [Element(accessor)], output));
  }

  /** Apply `items[1..]`, in order, to the cell `accessor` names. */
  method ApplyAll(output0: seq<string>, items: seq<string>, accessor: string, funcs: set<string>)
    returns (output: seq<string>)
    requires items != []
    ensures output == output0 + EmitAll(items[1..], accessor, funcs)
  {
    output := output0;
    for j := 1 to |items|
      invariant output == output0 + EmitAll(items[1..j], accessor, funcs)
    {
      assert items[1..j + 1] == items[1..j] + [items[j]];
      EmitAllAppend(items[1..j], items[j], accessor, funcs);
      output := Apply(output, items[j], accessor, funcs);
    }
    assert items[1..|items|] == items[1..];
  }

  /** The `)` case: pop back to `(` and close the loop. */
  method CloseConditionalStep(stack0: seq<string>, output: seq<string>, funcs: set<string>)
    returns (r: Result<Body, CompileError>)
    ensures r == Step(Body(stack0, output), CONDITIONAL_CLOSE, funcs)
  {
    var ok, stack := PopConditional(stack0);
    if !ok {
      return Err(StackEmpty);
    }
    return Ok(Body(stack, output + [LOOP_CLOSE]));
  }

  /** The pops of the `)` case: discard entries back to and including `(`. */
  method PopConditional(stack0: seq<string>) returns (ok: bool, stack: seq<string>)
    ensures ok <==> PopUntil(stack0, CONDITIONAL_OPEN).Some?
    ensures ok ==> stack == PopUntil(stack0, CONDITIONAL_OPEN).value.1
  {
    stack := stack0;
    ghost var dropped: seq<string> := [];
    if stack == [] {
      return false, stack;
    }
    var val := stack[|stack| - 1];
    stack := stack[..|stack| - 1];
    while val != CONDITIONAL_OPEN
      invariant stack0 == stack + [val] + dropped
      invariant CONDITIONAL_OPEN !in dropped
      decreases |stack|
    {
      dropped := [val] + dropped;
      if stack == [] {
        return false, stack;
      }
      val := stack[|stack| - 1];
      stack := stack[..|stack| - 1];
    }
    PopUntilSplit(stack, CONDITIONAL_OPEN, dropped);
    return true, stack;
  }

  // ---- properties of the pass ----

  lemma {:induction false} RunAppend(a: seq<string>, c: seq<string>, funcs: set<string>, b: Body)
    ensures Run(a + c, funcs, b) ==
      match Run(a, funcs, b)
      case Err(e) => Err(e)
      case Ok(b') => Run(c, funcs, b')
    decreases |a|
  {
    if a == [] {
      assert a + c == c;
    } else {
      assert (a + c)[0] == a[0];
      assert (a + c)[1..] == a[1..] + c;
      match Step(b, a[0], funcs)
      case Err(_) =>
      case Ok(b') => RunAppend(a[1..], c, funcs, b');
    }
  }

  /** A line that is neither a loop opening nor a loop closing: a statement or a guard. */
  predicate PlainLine(line: string) {
    line != [] && (line[|line| - 1] == ';' || (|line| > 1 && line[|line| - 1] == '}'))
  }

  predicate PlainLines(lines: seq<string>) {
    forall k :: 0 <= k < |lines| ==> PlainLine(lines[k])
  }

  lemma GuardPlain(cell: string)
    ensures PlainLine(Guard(cell))
  {
  }

  lemma {:induction false} PlainLinesCount(out: seq<string>, added: seq<string>)
    requires PlainLines(added)
    ensures Count(out + added, LOOP_OPEN) == Count(out, LOOP_OPEN)
    ensures Count(out + added, LOOP_CLOSE) == Count(out, LOOP_CLOSE)
  {
    CountAppend(out, added, LOOP_OPEN);
    CountAppend(out, added, LOOP_CLOSE);
    forall k | 0 <= k < |added| ensures added[k] != LOOP_OPEN && added[k] != LOOP_CLOSE {
      assert PlainLine(added[k]);
    }
  }

  lemma CloseLines(b: Body, funcs: set<string>)
    requires Step(b, APPLICATOR_CLOSE, funcs).Ok?
    ensures var out := Step(b, APPLICATOR_CLOSE, funcs).value.output;
      Count(out, LOOP_OPEN) == Count(b.output, LOOP_OPEN) && Count(out, LOOP_CLOSE) == Count(b.output, LOOP_CLOSE)
  {
    var p := PopUntil(b.stack, APPLICATOR_OPEN).value;
    var acc := p.0[0];
    var emitted := EmitAll(p.0[1..], acc, funcs);
    var guard := if ConditionalTop(p.1) then [Guard(Element(Element(acc)))] else [];
    GuardPlain(Element(Element(acc)));
    assert PlainLines(emitted + guard) by {
      forall k | 0 <= k < |emitted + guard| ensures PlainLine((emitted + guard)[k]) {
        if k < |emitted| { assert (emitted + guard)[k] == emitted[k]; }
      }
    }
    PlainLinesCount(b.output, emitted + guard);
    assert Step(b, APPLICATOR_CLOSE, funcs).value.output == b.output + (emitted + guard);
  }

  lemma OtherLines(b: Body, token: string, funcs: set<string>)
    requires token != APPLICATOR_CLOSE && token != APPLICATOR_OPEN
    requires token != CONDITIONAL_OPEN && token != CONDITIONAL_CLOSE
    ensures var out := Step(b, token, funcs).value.output;
      Count(out, LOOP_OPEN) == Count(b.output, LOOP_OPEN) && Count(out, LOOP_CLOSE) == Count(b.output, LOOP_CLOSE)
  {
    var guard := if ConditionalTop(b.stack) then [Guard(Element(token))] else [];
    GuardPlain(Element(token));
    PlainLinesCount(b.output, guard);
  }

  /** One step adds one `while(1){` line per `(` and one `}` line per `)`, and no other loop text. */
  lemma StepLoopLines(b: Body, token: string, funcs: set<string>)
    requires Step(b, token, funcs).Ok?
    ensures Count(Step(b, token, funcs).value.output, LOOP_OPEN) ==
      Count(b.output, LOOP_OPEN) + (if token == CONDITIONAL_OPEN then 1 else 0)
    ensures Count(Step(b, token, funcs).value.output, LOOP_CLOSE) ==
      Count(b.output, LOOP_CLOSE) + (if token == CONDITIONAL_CLOSE then 1 else 0)
  {
    if token == APPLICATOR_CLOSE {
      CloseLines(b, funcs);
    } else if token == CONDITIONAL_CLOSE {
      CountAppend(b.output, [LOOP_CLOSE], LOOP_OPEN);
      CountAppend(b.output, [LOOP_CLOSE], LOOP_CLOSE);
    } else if token == CONDITIONAL_OPEN {
      CountAppend(b.output, [LOOP_OPEN], LOOP_OPEN);
      CountAppend(b.output, [LOOP_OPEN], LOOP_CLOSE);
    } else if token == APPLICATOR_OPEN {
    } else {
      OtherLines(b, token, funcs);
    }
  }

  /**
   * Every `(` emits exactly one `while(1){` and every `)` exactly one `}`:
   * the loop braces of a compiled body balance when its conditionals do.
   */
  lemma {:induction false} LoopLines(ts: seq<string>, funcs: set<string>, b: Body)
    requires Run(ts, funcs, b).Ok?
    ensures Count(Run(ts, funcs, b).value.output, LOOP_OPEN) == Count(b.output, LOOP_OPEN) + Count(ts, CONDITIONAL_OPEN)
    ensures Count(Run(ts, funcs, b).value.output, LOOP_CLOSE) == Count(b.output, LOOP_CLOSE) + Count(ts, CONDITIONAL_CLOSE)
    decreases |ts|
  {
    if ts != [] {
      StepLoopLines(b, ts[0], funcs);
      LoopLines(ts[1..], funcs, Step(b, ts[0], funcs).value);
    }
  }

  /**
   * `]` takes the entries back to the nearest `[` in source order: the
   * first is the accessor, each later one is applied to it in order, a
   * guard follows when the applicator is a conditional's accessor, and the
   * cell `d0[acc]` is pushed as a value.
   */
  lemma CloseApplicator(s: seq<string>, items: seq<string>, out: seq<string>, funcs: set<string>)
    requires APPLICATOR_OPEN !in items && items != []
    ensures Step(Body(s + [APPLICATOR_OPEN] + items, out), APPLICATOR_CLOSE, funcs) ==
      Ok(Body(s + [Element(items[0])],
              out + EmitAll(items[1..], items[0], funcs)
                  + (if ConditionalTop(s) then [Guard(Element(Element(items[0])))] else [])))
  {
    PopUntilSplit(s, APPLICATOR_OPEN, items);
  }

  /** A literal right after `(` is the conditional's accessor, guarded by `if(!d0[tok]){break;}`. */
  lemma LiteralGuard(s: seq<string>, out: seq<string>, token: string, funcs: set<string>)
    requires token != APPLICATOR_OPEN && token != APPLICATOR_CLOSE
    requires token != CONDITIONAL_OPEN && token != CONDITIONAL_CLOSE
    ensures Step(Body(s + [CONDITIONAL_OPEN], out), token, funcs) ==
      Ok(Body(s + [CONDITIONAL_OPEN, token], out + ["if(!d0[" + token + "]){break;}"]))
  {
    assert s + [CONDITIONAL_OPEN] + [token] == s + [CONDITIONAL_OPEN, token];
    assert Guard(Element(token)) == "if(!d0[" + token + "]){break;}";
  }

  lemma CellGuardText(acc: string)
    ensures Guard(Element(Element(acc))) == "if(!d0[d0[" + acc + "]]){break;}"
  {
    assert Element(Element(acc)) == "d0[d0[" + acc + "]]";
  }

  /** An applicator right after `(` is the accessor: its guard tests the cell it names, `if(!d0[d0[acc]]){break;}`. */
  lemma ApplicatorGuard(s: seq<string>, items: seq<string>, out: seq<string>, funcs: set<string>)
    requires APPLICATOR_OPEN !in items && items != []
    ensures Step(Body(s + [CONDITIONAL_OPEN, APPLICATOR_OPEN] + items, out), APPLICATOR_CLOSE, funcs) ==
      Ok(Body(s + [CONDITIONAL_OPEN, Element(items[0])],
              out + EmitAll(items[1..], items[0], funcs) + ["if(!d0[d0[" + items[0] + "]]){break;}"]))
  {
    var s' := s + [CONDITIONAL_OPEN];
    assert s + [CONDITIONAL_OPEN, APPLICATOR_OPEN] + items == s' + [APPLICATOR_OPEN] + items;
    CloseApplicator(s', items, out, funcs);
    assert ConditionalTop(s');
    assert s' + [Element(items[0])] == s + [CONDITIONAL_OPEN, Element(items[0])];
    CellGuardText(items[0]);
  }

  predicate IsMarker(t: string) {
    t == APPLICATOR_OPEN || t == APPLICATOR_CLOSE || t == CONDITIONAL_OPEN || t == CONDITIONAL_CLOSE
  }

  /** Outside any conditional, bracket-free tokens are only pushed: they emit nothing. */
  lemma {:induction false} PlainTokensPushed(ts: seq<string>, funcs: set<string>, b: Body)
    requires forall k :: 0 <= k < |ts| ==> !IsMarker(ts[k])
    requires !ConditionalTop(b.stack)
    ensures Run(ts, funcs, b) == Ok(Body(b.stack + ts, b.output))
    decreases |ts|
  {
    if ts == [] {
      assert b.stack + [] == b.stack;
    } else {
      var t := ts[0];
      assert !IsMarker(t);
      assert b.output + [] == b.output;
      assert Step(b, t, funcs) == Ok(Body(b.stack + [t], b.output));
      assert !ConditionalTop(b.stack + [t]);
      assert forall k :: 0 <= k < |ts[1..]| ==> !IsMarker(ts[1..][k]);
      PlainTokensPushed(ts[1..], funcs, Body(b.stack + [t], b.output));
      assert b.stack + [t] + ts[1..] == b.stack + ts;
    }
  }

  // ---- the compiler's unit tests, worked out on the emitted lines ----

  lemma RunCons(t: string, ts: seq<string>, funcs: set<string>, b: Body)
    requires Step(b, t, funcs).Ok?
    ensures Run([t] + ts, funcs, b) == Run(ts, funcs, Step(b, t, funcs).value)
  {
    assert ([t] + ts)[0] == t && ([t] + ts)[1..] == ts;
  }

  lemma RunLast(t: string, funcs: set<string>, b: Body)
    ensures Run([t], funcs, b) == Step(b, t, funcs)
  {
    assert [t][1..] == [];
    match Step(b, t, funcs)
    case Err(_) =>
    case Ok(b') =>
  }

  lemma RunThen(a: seq<string>, c: seq<string>, funcs: set<string>, b: Body, b': Body)
    requires Run(a, funcs, b) == Ok(b')
    ensures Run(a + c, funcs, b) == Run(c, funcs, b')
  {
    RunAppend(a, c, funcs, b);
  }

  predicate NoMarkers(ts: seq<string>) {
    forall k :: 0 <= k < |ts| ==> !IsMarker(ts[k])
  }

  /**
   * An applicator of bracket-free tokens: every later token is applied to
   * the first, a guard follows when it is a conditional's accessor, and the
   * cell is left on the stack.
   */
  lemma Applicator(s: seq<string>, out: seq<string>, items: seq<string>, funcs: set<string>)
    requires items != [] && NoMarkers(items)
    ensures Run([APPLICATOR_OPEN] + items + [APPLICATOR_CLOSE], funcs, Body(s, out)) ==
      Ok(Body(s + [Element(items[0])],
              out + EmitAll(items[1..], items[0], funcs)
                  + (if ConditionalTop(s) then [Guard(Element(Element(items[0])))] else [])))
  {
    var b1 := Body(s + [APPLICATOR_OPEN], out);
    assert Step(Body(s, out), APPLICATOR_OPEN, funcs) == Ok(b1);
    RunCons(APPLICATOR_OPEN, items, funcs, Body(s, out));
    PlainTokensPushed(items, funcs, b1);
    RunThen([APPLICATOR_OPEN] + items, [APPLICATOR_CLOSE], funcs, Body(s, out), Body(s + [APPLICATOR_OPEN] + items, out));
    RunLast(APPLICATOR_CLOSE, funcs, Body(s + [APPLICATOR_OPEN] + items, out));
    assert APPLICATOR_OPEN !in items by {
      forall k | 0 <= k < |items| ensures items[k] != APPLICATOR_OPEN {
        assert !IsMarker(items[k]);
      }
    }
    CloseApplicator(s, items, out, funcs);
  }

  /** `[acc app]`: one statement applying `app` to `d0[acc]`. */
  lemma SimpleApplicator(s: seq<string>, out: seq<string>, acc: string, app: string, funcs: set<string>)
    requires !IsMarker(acc) && !IsMarker(app) && !ConditionalTop(s)
    ensures Run([APPLICATOR_OPEN, acc, app, APPLICATOR_CLOSE], funcs, Body(s, out)) ==
      Ok(Body(s + [Element(acc)], out + Emit(app, acc, funcs)))
  {
    assert [APPLICATOR_OPEN, acc, app, APPLICATOR_CLOSE] == [APPLICATOR_OPEN] + [acc, app] + [APPLICATOR_CLOSE];
    Applicator(s, out, [acc, app], funcs);
    assert [acc, app][1..] == [app] && [app][1..] == [];
    assert EmitAll([app], acc, funcs) == Emit(app, acc, funcs) + EmitAll([], acc, funcs);
    assert Emit(app, acc, funcs) + [] == Emit(app, acc, funcs);
    assert out + Emit(app, acc, funcs) + [] == out + Emit(app, acc, funcs);
  }

  /** Assigning a cell: `d0[acc] = d0[inner];`. */
  lemma EmitCell(acc: string, inner: string, funcs: set<string>)
    requires Element(inner) !in funcs
    ensures EmitAll([Element(inner)], acc, funcs) == [Element(acc) + " = " + Element(inner) + ";"]
  {
    var e := Element(inner);
    assert |e| >= 4;
    assert e != NOP && e != INCREMENT && e != DECREMENT && e != OUTPUT && e != INPUT;
    assert [e][1..] == [];
    assert EmitAll([e], acc, funcs) == Emit(e, acc, funcs) + EmitAll([], acc, funcs);
  }

  lemma InnerCell(s: seq<string>, out: seq<string>, acc: string, inner: string, funcs: set<string>)
    requires !IsMarker(acc) && !IsMarker(inner) && !ConditionalTop(s)
    ensures Run([APPLICATOR_OPEN, acc] + ([APPLICATOR_OPEN] + [inner] + [APPLICATOR_CLOSE]), funcs, Body(s, out)) ==
      Ok(Body(s + [APPLICATOR_OPEN, acc, Element(inner)], out))
  {
    var s1 := s + [APPLICATOR_OPEN, acc];
    var b0 := Body(s, out);
    var b1 := Body(s + [APPLICATOR_OPEN], out);
    var b2 := Body(s1, out);
    assert Step(b0, APPLICATOR_OPEN, funcs) == Ok(b1);
    assert out + [] == out;
    assert s + [APPLICATOR_OPEN] + [acc] == s1;
    assert Step(b1, acc, funcs) == Ok(b2);
    assert Run([APPLICATOR_OPEN, acc], funcs, b0) == Ok(b2) by {
      RunCons(APPLICATOR_OPEN, [acc], funcs, b0);
      RunLast(acc, funcs, b1);
    }
    Applicator(s1, out, [inner], funcs);
    assert [inner][1..] == [] && [inner][0] == inner;
    assert !ConditionalTop(s1);
    assert EmitAll([], inner, funcs) == [];
    assert out + [] + [] == out;
    RunThen([APPLICATOR_OPEN, acc], [APPLICATOR_OPEN] + [inner] + [APPLICATOR_CLOSE], funcs, b0, b2);
    assert s1 + [Element(inner)] == s + [APPLICATOR_OPEN, acc, Element(inner)];
  }

  /** `[acc [inner]]`: the inner applicator stands for the cell `d0[inner]`, assigned to `d0[acc]`. */
  lemma AssignCell(s: seq<string>, out: seq<string>, acc: string, inner: string, funcs: set<string>)
    requires !IsMarker(acc) && !IsMarker(inner) && !ConditionalTop(s)
    requires Element(inner) !in funcs
    ensures Run([APPLICATOR_OPEN, acc, APPLICATOR_OPEN, inner, APPLICATOR_CLOSE, APPLICATOR_CLOSE], funcs, Body(s, out)) ==
      Ok(Body(s + [Element(acc)], out + [Element(acc) + " = " + Element(inner) + ";"]))
  {
    var pre := [APPLICATOR_OPEN, acc] + ([APPLICATOR_OPEN] + [inner] + [APPLICATOR_CLOSE]);
    var s2 := s + [APPLICATOR_OPEN, acc, Element(inner)];
    assert [APPLICATOR_OPEN, acc, APPLICATOR_OPEN, inner, APPLICATOR_CLOSE, APPLICATOR_CLOSE] == pre + [APPLICATOR_CLOSE];
    InnerCell(s, out, acc, inner, funcs);
    RunThen(pre, [APPLICATOR_CLOSE], funcs, Body(s, out), Body(s2, out));
    RunLast(APPLICATOR_CLOSE, funcs, Body(s2, out));
    assert s2 == s + [APPLICATOR_OPEN] + [acc, Element(inner)];
    CloseApplicator(s, [acc, Element(inner)], out, funcs);
    assert [acc, Element(inner)][1..] == [Element(inner)];
    EmitCell(acc, inner, funcs);
    assert out + [Element(acc) + " = " + Element(inner) + ";"] + [] == out + [Element(acc) + " = " + Element(inner) + ";"];
  }

  /** `( tok`: open a loop and guard it on the cell `tok` names. */
  lemma OpenLiteral(s: seq<string>, out: seq<string>, tok: string, funcs: set<string>)
    requires !IsMarker(tok)
    ensures Run([CONDITIONAL_OPEN, tok], funcs, Body(s, out)) ==
      Ok(Body(s + [CONDITIONAL_OPEN, tok], out + [LOOP_OPEN, Guard(Element(tok))]))
  {
    var b1 := Body(s + [CONDITIONAL_OPEN], out + [LOOP_OPEN]);
    assert Step(Body(s, out), CONDITIONAL_OPEN, funcs) == Ok(b1);
    LiteralGuard(s, out + [LOOP_OPEN], tok, funcs);
    assert Guard(Element(tok)) == "if(!d0[" + tok + "]){break;}";
    assert out + [LOOP_OPEN] + [Guard(Element(tok))] == out + [LOOP_OPEN, Guard(Element(tok))];
    RunCons(CONDITIONAL_OPEN, [tok], funcs, Body(s, out));
    RunLast(tok, funcs, b1);
  }

  /** `)`: drop everything back to the matching `(` and close the loop. */
  lemma CloseLoop(s: seq<string>, items: seq<string>, out: seq<string>, funcs: set<string>)
    requires CONDITIONAL_OPEN !in items
    ensures Run([CONDITIONAL_CLOSE], funcs, Body(s + [CONDITIONAL_OPEN] + items, out)) == Ok(Body(s, out + [LOOP_CLOSE]))
  {
    PopUntilSplit(s, CONDITIONAL_OPEN, items);
    RunLast(CONDITIONAL_CLOSE, funcs, Body(s + [CONDITIONAL_OPEN] + items, out));
  }

  lemma BuiltinStatements()
    ensures Emit(INCREMENT, "0", {}) == ["d0[0]++;"]
    ensures Emit(DECREMENT, "0", {}) == ["d0[0]--;"]
    ensures Emit("13", "0", {}) == ["d0[0] = 13;"]
    ensures Emit(INPUT, "0", {}) == ["d0[0] = getchar();"]
    ensures Emit(OUTPUT, "0", {}) == ["putchar(d0[0]);"]
  {
    assert Element("0") == "d0[0]";
    assert Element("0") + "++;" == "d0[0]++;";
    assert Element("0") + "--;" == "d0[0]--;";
    assert Element("0") + " = " + "13" + ";" == "d0[0] = 13;";
    assert Element("0") + " = getchar();" == "d0[0] = getchar();";
    assert "putchar(" + Element("0") + ");" == "putchar(d0[0]);";
  }

  /** Each builtin compiles to its one statement, and a number is assigned. */
  lemma CompileBuiltins()
    ensures Run([APPLICATOR_OPEN, "0", INCREMENT, APPLICATOR_CLOSE], {}, Body([], [])) == Ok(Body(["d0[0]"], ["d0[0]++;"]))
    ensures Run([APPLICATOR_OPEN, "0", DECREMENT, APPLICATOR_CLOSE], {}, Body([], [])) == Ok(Body(["d0[0]"], ["d0[0]--;"]))
    ensures Run([APPLICATOR_OPEN, "0", "13", APPLICATOR_CLOSE], {}, Body([], [])) == Ok(Body(["d0[0]"], ["d0[0] = 13;"]))
    ensures Run([APPLICATOR_OPEN, "0", INPUT, APPLICATOR_CLOSE], {}, Body([], [])) == Ok(Body(["d0[0]"], ["d0[0] = getchar();"]))
    ensures Run([APPLICATOR_OPEN, "0", OUTPUT, APPLICATOR_CLOSE], {}, Body([], [])) == Ok(Body(["d0[0]"], ["putchar(d0[0]);"]))
  {
    SimpleApplicator([], [], "0", INCREMENT, {});
    SimpleApplicator([], [], "0", DECREMENT, {});
    SimpleApplicator([], [], "0", "13", {});
    SimpleApplicator([], [], "0", INPUT, {});
    SimpleApplicator([], [], "0", OUTPUT, {});
    BuiltinStatements();
    assert Element("0") == "d0[0]";
    assert [] + [Element("0")] == ["d0[0]"];
    assert forall x: seq<string> :: [] + x == x;
  }

  /** `[0 [1]]` compiles to `d0[0] = d0[1];`. */
  lemma CompileAssignFromVariable()
    ensures Run([APPLICATOR_OPEN, "0", APPLICATOR_OPEN, "1", APPLICATOR_CLOSE, APPLICATOR_CLOSE], {}, Body([], [])) ==
      Ok(Body(["d0[0]"], ["d0[0] = d0[1];"]))
  {
    AssignCell([], [], "0", "1", {});
    assert Element("0") == "d0[0]" && Element("1") == "d0[1]";
    assert Element("0") + " = " + Element("1") + ";" == "d0[0] = d0[1];";
    assert forall x: seq<string> :: [] + x == x;
  }

  /** No cell reference is a bracket. */
  lemma ElementNotMarker(acc: string)
    ensures !IsMarker(Element(acc))
  {
    assert |Element(acc)| >= 4;
  }

  /**
   * `( c body )`: the loop line and the guard on `c`, then whatever `body` emits inside
   * the loop, then the closing line; the stack is back where it was.
   */
  lemma GuardedLoop(s: seq<string>, out: seq<string>, c: string, body: seq<string>, pushed: seq<string>,
                    stmts: seq<string>, funcs: set<string>)
    requires !IsMarker(c) && CONDITIONAL_OPEN !in pushed
    requires Run(body, funcs, Body(s + [CONDITIONAL_OPEN, c], out + [LOOP_OPEN, Guard(Element(c))]))
      == Ok(Body(s + [CONDITIONAL_OPEN, c] + pushed, out + [LOOP_OPEN, Guard(Element(c))] + stmts))
    ensures Run([CONDITIONAL_OPEN, c] + body + [CONDITIONAL_CLOSE], funcs, Body(s, out))
      == Ok(Body(s, out + [LOOP_OPEN, Guard(Element(c))] + stmts + [LOOP_CLOSE]))
  {
    var b0 := Body(s, out);
    var b1 := Body(s + [CONDITIONAL_OPEN, c], out + [LOOP_OPEN, Guard(Element(c))]);
    var out2 := out + [LOOP_OPEN, Guard(Element(c))] + stmts;
    OpenLiteral(s, out, c, funcs);
    RunThen([CONDITIONAL_OPEN, c], body, funcs, b0, b1);
    RunThen([CONDITIONAL_OPEN, c] + body, [CONDITIONAL_CLOSE], funcs, b0, Body(s + [CONDITIONAL_OPEN, c] + pushed, out2));
    assert s + [CONDITIONAL_OPEN, c] + pushed == s + [CONDITIONAL_OPEN] + ([c] + pushed);
    CloseLoop(s, [c] + pushed, out2, funcs);
  }

  lemma FourLines(out: seq<string>, a: string, b: string, c: string, d: string)
    ensures out + [a, b] + [c] + [d] == out + [a, b, c, d]
  {
  }

  /** `(0 [0 .])` is a loop guarded on `d0[0]` that prints `d0[0]`. */
  lemma CompileSimpleConditional()
    ensures Run([CONDITIONAL_OPEN, "0"] + [APPLICATOR_OPEN, "0", OUTPUT, APPLICATOR_CLOSE] + [CONDITIONAL_CLOSE], {}, Body([], [])) ==
      Ok(Body([], [LOOP_OPEN, "if(!d0[0]){break;}", "putchar(d0[0]);", LOOP_CLOSE]))
  {
    var s1 := [] + [CONDITIONAL_OPEN, "0"];
    var out1 := [] + [LOOP_OPEN, Guard(Element("0"))];
    SimpleApplicator(s1, out1, "0", OUTPUT, {});
    ElementNotMarker("0");
    GuardedLoop([], [], "0", [APPLICATOR_OPEN, "0", OUTPUT, APPLICATOR_CLOSE], [Element("0")], Emit(OUTPUT, "0", {}), {});
    BuiltinStatements();
    var g := Guard(Element("0"));
    assert g == "if(!d0[0]){break;}";
    assert Emit(OUTPUT, "0", {}) == ["putchar(d0[0]);"];
    FourLines([], LOOP_OPEN, g, "putchar(d0[0]);", LOOP_CLOSE);
    assert [] + [LOOP_OPEN, g, "putchar(d0[0]);", LOOP_CLOSE] == [LOOP_OPEN, g, "putchar(d0[0]);", LOOP_CLOSE];
  }

  /** The inner loop `(1 [0 [1]])`: the loop line, its guard, the assignment and the closing line. */
  lemma InnerLoop(s: seq<string>, out: seq<string>)
    ensures Run([CONDITIONAL_OPEN, "1"] + [APPLICATOR_OPEN, "0", APPLICATOR_OPEN, "1", APPLICATOR_CLOSE, APPLICATOR_CLOSE]
                + [CONDITIONAL_CLOSE], {}, Body(s, out)) ==
      Ok(Body(s, out + [LOOP_OPEN, "if(!d0[1]){break;}", "d0[0] = d0[1];", LOOP_CLOSE]))
  {
    var s1 := s + [CONDITIONAL_OPEN, "1"];
    var out1 := out + [LOOP_OPEN, Guard(Element("1"))];
    var assign := Element("0") + " = " + Element("1") + ";";
    AssignCell(s1, out1, "0", "1", {});
    ElementNotMarker("0");
    GuardedLoop(s, out, "1", [APPLICATOR_OPEN, "0", APPLICATOR_OPEN, "1", APPLICATOR_CLOSE, APPLICATOR_CLOSE],
                [Element("0")], [assign], {});
    assert Guard(Element("1")) == "if(!d0[1]){break;}";
    assert Element("0") == "d0[0]" && Element("1") == "d0[1]";
    assert assign == "d0[0] = d0[1];";
    FourLines(out, LOOP_OPEN, "if(!d0[1]){break;}", "d0[0] = d0[1];", LOOP_CLOSE);
  }

  lemma NestedLines(a: string, b: string, c: string, d: string, e: string, f: string, g: string)
    ensures [] + [a, b] + [c, d, e, f] + [g] == [a, b, c, d, e, f, g]
  {
  }

  /** `(0 (1 [0 [1]]))`: two nested loops, each guarded on its own cell, around one assignment. */
  lemma CompileNestedConditional()
    ensures Run([CONDITIONAL_OPEN, "0"]
                + ([CONDITIONAL_OPEN, "1"] + [APPLICATOR_OPEN, "0", APPLICATOR_OPEN, "1", APPLICATOR_CLOSE, APPLICATOR_CLOSE]
                   + [CONDITIONAL_CLOSE])
                + [CONDITIONAL_CLOSE], {}, Body([], [])) ==
      Ok(Body([], [LOOP_OPEN, "if(!d0[0]){break;}", LOOP_OPEN, "if(!d0[1]){break;}", "d0[0] = d0[1];", LOOP_CLOSE, LOOP_CLOSE]))
  {
    var inner := [CONDITIONAL_OPEN, "1"] + [APPLICATOR_OPEN, "0", APPLICATOR_OPEN, "1", APPLICATOR_CLOSE, APPLICATOR_CLOSE]
                 + [CONDITIONAL_CLOSE];
    var s1 := [] + [CONDITIONAL_OPEN, "0"];
    var out1 := [] + [LOOP_OPEN, Guard(Element("0"))];
    var lines := [LOOP_OPEN, "if(!d0[1]){break;}", "d0[0] = d0[1];", LOOP_CLOSE];
    InnerLoop(s1, out1);
    assert s1 + [] == s1;
    GuardedLoop([], [], "0", inner, [], lines, {});
    assert Guard(Element("0")) == "if(!d0[0]){break;}";
    NestedLines(LOOP_OPEN, "if(!d0[0]){break;}", LOOP_OPEN, "if(!d0[1]){break;}", "d0[0] = d0[1];", LOOP_CLOSE, LOOP_CLOSE);
  }

  /** A user application is called with the accessor as its argument, in both `main` and other bodies. */
  lemma CompileCustomCalls()
    ensures Run([APPLICATOR_OPEN, "0", "inc", APPLICATOR_CLOSE], {"inc"}, Body([], [])) == Ok(Body(["d0[0]"], ["inc(0);"]))
    ensures Run([APPLICATOR_OPEN, "s0", INCREMENT, APPLICATOR_CLOSE], {"inc"}, Body([], [])) == Ok(Body(["d0[s0]"], ["d0[s0]++;"]))
    ensures Run([APPLICATOR_OPEN, "s0", "inc", APPLICATOR_CLOSE], {"inc", "foo"}, Body([], [])) == Ok(Body(["d0[s0]"], ["inc(s0);"]))
  {
    SimpleApplicator([], [], "0", "inc", {"inc"});
    SimpleApplicator([], [], "s0", INCREMENT, {"inc"});
    SimpleApplicator([], [], "s0", "inc", {"inc", "foo"});
    assert Element("0") == "d0[0]" && Element("s0") == "d0[s0]";
    assert "inc" + "(" + "0" + ");" == "inc(0);";
    assert "inc" + "(" + "s0" + ");" == "inc(s0);";
    assert Element("s0") + "++;" == "d0[s0]++;";
    assert forall x: seq<string> :: [] + x == x;
  }

  // ---- compile_application, compile_main, compile ----

  function Declaration(name: string): string {
    "void " + name + "(unsigned int s0)"
  }

  /** The definition of a user application: its declaration, then the body in braces. */
  function FunctionText(name: string, body: string): string {
    Lines([Declaration(name) + "{", body, "}\n"])
  }

  /** `compile_application`: the prototype line and the definition. */
  function CompileApplication(name: string, tokens: seq<string>, funcs: set<string>): Result<(string, string), CompileError> {
    match BodyText(tokens, funcs)
    case Err(e) => Err(e)
    case Ok(body) => Ok((Declaration(name) + ";\n", FunctionText(name, body)))
  }

  function MainText(body: string): string {
    Lines(["int main(void) {",
           "d0=(unsigned char *)calloc(" + ToDecimal(DATA_SIZE) + ", 1);",
           body,
           "free(d0);",
           "return 0;",
           "}"])
  }

  /** `compile_main`. */
  function CompileMain(tokens: seq<string>, funcs: set<string>): Result<string, CompileError> {
    match BodyText(tokens, funcs)
    case Err(e) => Err(e)
    case Ok(body) => Ok(MainText(body))
  }

  const BOILERPLATE: string := Lines(["#include <stdio.h>", "#include <stdlib.h>", "unsigned char *d0;\n"])

  /** The declarations and definitions of the named applications, in the given order. */
  function CompileAll(names: seq<string>, apps: Table, funcs: set<string>): Result<(seq<string>, seq<string>), CompileError>
    requires forall n :: n in names ==> n in apps
    decreases |names|
  {
    if names == [] then Ok(([], []))
    else
      var init := names[..|names| - 1];
      var last := names[|names| - 1];
      assert forall n :: n in init ==> n in names;
      match CompileAll(init, apps, funcs)
      case Err(e) => Err(e)
      case Ok(p) =>
        match CompileApplication(last, apps[last], funcs)
        case Err(e) => Err(e)
        case Ok(c) => Ok((p.0 + [c.0], p.1 + [c.1]))
  }

  /** What `compile` returns for a table whose applications are visited in `order`. */
  function CompileResult(apps: Table, order: seq<string>): Result<string, CompileError>
    requires forall n :: n in order ==> n in apps
  {
    if MAIN !in apps then Err(MissingMain)
    else
      var funcs := (apps - {MAIN}).Keys;
      match CompileAll(order, apps, funcs)
      case Err(e) => Err(e)
      case Ok(p) =>
        match CompileMain(apps[MAIN], funcs)
        case Err(e) => Err(e)
        case Ok(m) => Ok(BOILERPLATE + Lines(p.0) + Lines(p.1) + m)
  }

  /**
   * `compile`. `order` is the iteration order of the table's non-main
   * entries; the second result is the table after `main` has been popped
   * from it.
   */
  method Compile(applications: Table, order: seq<string>) returns (r: Result<string, CompileError>, remaining: Table)
    requires forall n :: n in order <==> n in applications && n != MAIN
    requires forall i, j :: 0 <= i < j < |order| ==> order[i] != order[j]
    ensures remaining == applications - {MAIN}
    ensures r == CompileResult(applications, order)
  {
    remaining := applications;
    if MAIN !in applications {
      return Err(MissingMain), remaining;
    }
    var mainAppl := applications[MAIN];
    remaining := applications - {MAIN};
    var funcs := remaining.Keys;
    var declarations: seq<string> := [];
    var bodies: seq<string> := [];
    for i := 0 to |order|
      invariant CompileAll(order[..i], applications, funcs) == Ok((declarations, bodies))
    {
      assert order[..i + 1][..i] == order[..i];
      var name := order[i];
      var content := remaining[name];
      var body := CompileBody(content, funcs);
      if body.Err? {
        CompileAllPrefix(order, i + 1, applications, funcs);
        return Err(body.error), remaining;
      }
      declarations := declarations + [Declaration(name) + ";\n"];
      bodies := bodies + [FunctionText(name, body.value)];
    }
    assert order[..|order|] == order;
    var mainText := CompileBody(mainAppl, funcs);
    if mainText.Err? {
      return Err(mainText.error), remaining;
    }
    r := Ok(BOILERPLATE + Lines(declarations) + Lines(bodies) + MainText(mainText.value));
  }

  /** The first application that fails to compile fails the whole table. */
  lemma {:induction false} CompileAllPrefix(names: seq<string>, i: nat, apps: Table, funcs: set<string>)
    requires i <= |names| && forall n :: n in names ==> n in apps
    requires CompileAll(names[..i], apps, funcs).Err?
    ensures CompileAll(names, apps, funcs) == CompileAll(names[..i], apps, funcs)
    decreases |names| - i
  {
    if i < |names| {
      assert names[..i + 1][..i] == names[..i];
      CompileAllPrefix(names, i + 1, apps, funcs);
    } else {
      assert names[..i] == names;
    }
  }

  /**
   * The declarations and definitions come out one per name, in order: the
   * `k`-th declaration is the prototype of `names[k]` and the `k`-th
   * definition is its compiled body in braces.
   */
  lemma {:induction false} CompileAllShape(names: seq<string>, apps: Table, funcs: set<string>)
    requires forall n :: n in names ==> n in apps
    requires CompileAll(names, apps, funcs).Ok?
    ensures |CompileAll(names, apps, funcs).value.0| == |names| == |CompileAll(names, apps, funcs).value.1|
    ensures forall k :: 0 <= k < |names| ==>
      && CompileAll(names, apps, funcs).value.0[k] == Declaration(names[k]) + ";\n"
      && BodyText(apps[names[k]], funcs).Ok?
      && CompileAll(names, apps, funcs).value.1[k] == FunctionText(names[k], BodyText(apps[names[k]], funcs).value)
    decreases |names|
  {
    if names != [] {
      var init := names[..|names| - 1];
      assert forall n :: n in init ==> n in names;
      CompileAllShape(init, apps, funcs);
      forall k | 0 <= k < |init| ensures names[k] == init[k] { }
    }
  }

  /**
   * `compile` lays out the include boilerplate, then every declaration,
   * then every definition, then `main`; the applications are compiled
   * against the names of all non-main applications.
   */
  lemma CompileLayout(apps: Table, order: seq<string>)
    requires forall n :: n in order ==> n in apps
    requires CompileResult(apps, order).Ok?
    ensures MAIN in apps
    ensures var funcs := (apps - {MAIN}).Keys;
      && CompileAll(order, apps, funcs).Ok?
      && BodyText(apps[MAIN], funcs).Ok?
      && CompileResult(apps, order).value ==
           BOILERPLATE + Lines(CompileAll(order, apps, funcs).value.0) + Lines(CompileAll(order, apps, funcs).value.1)
           + MainText(BodyText(apps[MAIN], funcs).value)
  {
  }

  /** A table without `main` cannot be compiled. */
  lemma MissingMainRejected(apps: Table, order: seq<string>)
    requires forall n :: n in order ==> n in apps
    requires MAIN !in apps
    ensures CompileResult(apps, order) == Err(MissingMain)
  {
  }

  /** The data area `main` allocates: `calloc(10000, 1)`. */
  lemma DataSizeText()
    ensures ToDecimal(DATA_SIZE) == "10000"
  {
    assert ToDecimal(1) == "1";
    assert ToDecimal(10) == "10";
    assert ToDecimal(100) == "100";
    assert ToDecimal(1000) == "1000";
  }

  /** The empty program is the boilerplate and an empty `main`. */
  lemma CompileEmpty()
    ensures CompileResult(map[MAIN := []], []) == Ok(BOILERPLATE + MainText(""))
  {
    var apps: Table := map[MAIN := []];
    assert Run([], {}, Body([], [])) == Ok(Body([], []));
    assert BodyText([], (apps - {MAIN}).Keys) == Ok("");
    assert BOILERPLATE + Lines([]) + Lines([]) == BOILERPLATE;
  }

  /** A table of one user application and `main`: its prototype, its definition, then `main`. */
  lemma CompileOne(n: string, body: seq<string>, main: seq<string>)
    requires n != MAIN
    requires BodyText(body, {n}).Ok? && BodyText(main, {n}).Ok?
    ensures CompileResult(map[n := body, MAIN := main], [n]) ==
      Ok(BOILERPLATE + (Declaration(n) + ";\n") + FunctionText(n, BodyText(body, {n}).value)
         + MainText(BodyText(main, {n}).value))
  {
    var apps: Table := map[n := body, MAIN := main];
    assert (apps - {MAIN}).Keys == {n} by {
      assert n in apps - {MAIN};
      forall k | k in (apps - {MAIN}).Keys ensures k == n { }
    }
    assert [n][..0] == [];
    var c := (Declaration(n) + ";\n", FunctionText(n, BodyText(body, {n}).value));
    assert CompileApplication(n, apps[n], {n}) == Ok(c);
    assert CompileAll([n], apps, {n}) == Ok(([] + [c.0], [] + [c.1]));
    assert [] + [c.0] == [c.0] && [] + [c.1] == [c.1];
  }

  /** `{inc [$ +]} [0 inc]`: one prototype, one definition incrementing its argument's cell, and a call in `main`. */
  lemma CompileSingleCustom()
    ensures CompileResult(map["inc" := [APPLICATOR_OPEN, "s0", INCREMENT, APPLICATOR_CLOSE],
                              MAIN := [APPLICATOR_OPEN, "0", "inc", APPLICATOR_CLOSE]], ["inc"]) ==
      Ok(BOILERPLATE + "void inc(unsigned int s0);\n" + FunctionText("inc", "d0[s0]++;") + MainText("inc(0);"))
  {
    CompileCustomCalls();
    assert BodyText([APPLICATOR_OPEN, "s0", INCREMENT, APPLICATOR_CLOSE], {"inc"}) == Ok("d0[s0]++;");
    assert BodyText([APPLICATOR_OPEN, "0", "inc", APPLICATOR_CLOSE], {"inc"}) == Ok("inc(0);");
    assert Declaration("inc") + ";\n" == "void inc(unsigned int s0);\n";
    CompileOne("inc", [APPLICATOR_OPEN, "s0", INCREMENT, APPLICATOR_CLOSE], [APPLICATOR_OPEN, "0", "inc", APPLICATOR_CLOSE]);
  }
}
