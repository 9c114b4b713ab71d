/**
 * The memory both interpreters work on: a list of integer cells indexed the
 * way Python indexes a list, the builtins that act on one cell, and
 * Python's `int()` on the values an interpreter handles (tokens and the
 * integers it pushes or returns). Standard input is a list of byte values
 * still to be read and standard output the list of values printed.
 */
module Cells {
  import opened Wrappers
  import opened Text
  import opened Constants

  /** Memory, unread input and printed output. */
  datatype Io = Io(data: seq<int>, input: seq<int>, output: seq<int>)

  /** A value an interpreter handles: a token, or an integer it computed. */
  datatype Value = Tok(s: string) | Num(n: int)

  datatype CellError =
    | AddressOutOfRange(address: int)   // IndexError on the memory list
    | InputExhausted                    // `ord('')` once standard input is at its end
    | NotANumber(token: string)         // `int()` of a token that is not a decimal integer

  /** The cell `data[a]` names in a list of `n` cells: negative `a` counts from the end. */
  function PyIndex(a: int, n: nat): (r: Option<nat>)
    ensures r.Some? <==> 0 - n <= a < n
    ensures r.Some? ==> r.value < n
    ensures r.Some? && a >= 0 ==> r.value == a
    ensures r.Some? && a < 0 ==> r.value == a + n
  {
    if 0 <= a < n then Some(a)
    else if 0 - n <= a < 0 then Some(a + n)
    else None
  }

  /** `int(v)`. */
  function IntOf(v: Value): Option<int> {
    match v
    case Num(n) => Some(n)
    case Tok(s) => ParseInt(s)
  }

  /** `int()` gives an integer back, and reads back the decimal token `str()` writes for a natural number. */
  lemma IntOfInverse(n: nat)
    ensures IntOf(Num(n)) == Some(n)
    ensures IntOf(Tok(ToDecimal(n))) == Some(n)
  {
    ParseDecimal(n);
  }

  /** A token `int()` accepts is no builtin. */
  lemma IntOfNotBuiltin(s: string)
    requires IntOf(Tok(s)).Some?
    ensures !IsBuiltin(s)
  {
    if |s| == 1 {
      assert IsDigit(s[0]);
    }
  }

  /** `data[a] = v`: the store, or the IndexError it raises. */
  function Store(io: Io, a: int, v: int): (r: Result<Io, CellError>)
    ensures r.Err? <==> PyIndex(a, |io.data|).None?
    ensures r.Err? ==> r.error == AddressOutOfRange(a)
    ensures r.Ok? ==>
      var c := PyIndex(a, |io.data|).value;
      && |r.value.data| == |io.data| && r.value.data[c] == v
      && (forall i :: 0 <= i < |io.data| && i != c ==> r.value.data[i] == io.data[i])
      && r.value.input == io.input && r.value.output == io.output
  {
    match PyIndex(a, |io.data|)
    case None => Err(AddressOutOfRange(a))
    case Some(c) => Ok(io.(data := io.data[c := v]))
  }

  /**
   * A builtin applied to the cell `a`: `_` does nothing (and reads no
   * cell), `+` and `-` step the cell, `.` prints it and `,` stores the next
   * input byte in it. For `,` the byte is read before the cell is indexed,
   * so exhausted input fails before an out-of-range address does.
   */
  function Builtin(io: Io, app: string, a: int): (r: Result<Io, CellError>)
    requires IsBuiltin(app)
    ensures app == NOP ==> r == Ok(io)
    ensures app != NOP ==>
      (r.Err? && r.error.AddressOutOfRange? <==>
        PyIndex(a, |io.data|).None? && !(app == INPUT && io.input == []))
    ensures r.Err? && r.error == InputExhausted <==> app == INPUT && io.input == []
    ensures r.Err? ==> r.error == InputExhausted || r.error == AddressOutOfRange(a)
    ensures r.Ok? && app != NOP ==>
      var c := PyIndex(a, |io.data|).value;
      && |r.value.data| == |io.data|
      && (forall i :: 0 <= i < |io.data| && i != c ==> r.value.data[i] == io.data[i])
      && (app == INCREMENT ==> r.value.data[c] == io.data[c] + 1)
      && (app == DECREMENT ==> r.value.data[c] == io.data[c] - 1)
      && (app == OUTPUT ==> r.value.data[c] == io.data[c])
      && (app == INPUT ==> r.value.data[c] == io.input[0])
      && r.value.output == io.output + (if app == OUTPUT then [io.data[c]] else [])
      && r.value.input == (if app == INPUT then io.input[1..] else io.input)
  {
    if app == NOP then Ok(io)
    else if app == INPUT && io.input == [] then Err(InputExhausted)
    else match PyIndex(a, |io.data|)
      case None => Err(AddressOutOfRange(a))
      case Some(c) =>
        if app == INCREMENT then Ok(io.(data := io.data[c := io.data[c] + 1]))
        else if app == DECREMENT then Ok(io.(data := io.data[c := io.data[c] - 1]))
        else if app == OUTPUT then Ok(io.(output := io.output + [io.data[c]]))
        else Ok(io.(data := io.data[c := io.input[0]], input := io.input[1..]))
  }

  /** `+` then `-` on the same cell restores the memory. */
  lemma IncrementDecrement(io: Io, a: int)
    requires PyIndex(a, |io.data|).Some?
    ensures Builtin(Builtin(io, INCREMENT, a).value, DECREMENT, a) == Ok(io)
  {
    var c := PyIndex(a, |io.data|).value;
    var up := Builtin(io, INCREMENT, a).value;
    assert up.data[c := up.data[c] - 1] == io.data;
  }

  /** Reading a byte and printing it echoes it: `,` then `.` outputs the byte read. */
  lemma EchoInput(io: Io, a: int)
    requires PyIndex(a, |io.data|).Some? && io.input != []
    ensures Builtin(io, INPUT, a).Ok?
    ensures Builtin(Builtin(io, INPUT, a).value, OUTPUT, a).Ok?
    ensures Builtin(Builtin(io, INPUT, a).value, OUTPUT, a).value.output == io.output + [io.input[0]]
  {
  }

  /** The `calloc`-style start: `n` zero cells, the whole input unread and nothing printed. */
  function Fresh(n: nat, input: seq<int>): (io: Io)
    ensures |io.data| == n && forall i :: 0 <= i < n ==> io.data[i] == 0
    ensures io.input == input && io.output == []
  {
    Io(seq(n, _ => 0), input, [])
  }

  /** In `n` fresh cells every address `0 <= a < n` reads zero, and `n` itself is out of range. */
  lemma FreshAddresses(n: nat, input: seq<int>, a: int)
    requires 0 <= a < n
    ensures PyIndex(a, n) == Some(a) && Fresh(n, input).data[a] == 0
    ensures PyIndex(n, n).None?
  {
  }

  /** A builtin on the memory array. */
  method BuiltinCell(data: array<int>, app: string, a: int, inp: seq<int>, out: seq<int>)
    returns (r: Result<(seq<int>, seq<int>), CellError>)
    requires IsBuiltin(app)
    modifies data
    ensures var s := Builtin(Io(old(data[..]), inp, out), app, a);
      && (s.Err? ==> r == Err(s.error))
      && (s.Ok? ==> r.Ok? && s.value == Io(data[..], r.value.0, r.value.1))
  {
    if app == NOP {
      return Ok((inp, out));
    }
    if app == INPUT && inp == [] {
      return Err(InputExhausted);
    }
    var cell := PyIndex(a, data.Length);
    if cell.None? {
      return Err(AddressOutOfRange(a));
    }
    var c := cell.value;
    if app == INCREMENT {
      data[c] := data[c] + 1;
    } else if app == DECREMENT {
      data[c] := data[c] - 1;
    } else if app == OUTPUT {
      return Ok((inp, out + [data[c]]));
    } else {
      data[c] := inp[0];
      return Ok((inp[1..], out));
    }
    return Ok((inp, out));
  }
}
