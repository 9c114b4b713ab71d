/**
 * The parser: a bracket checker, then the extraction of every application
 * definition `{name body}` from the token list into a table; what remains
 * of the program is stored under the name `main`.
 */
module Parser {
  import opened Wrappers
  import opened Lists
  import opened Constants

  datatype ParseError =
    | NestedApplication               // `{` while some bracket is still open
    | TooManyClosing(bracket: string) // a closer with nothing open
    | BracketMismatch                 // a closer that does not match the innermost opener
    | InvalidName(name: string)       // an application name with a character other than a letter or `_`
    | MainNotAllowed                  // the token `main` somewhere in the program
    | NameIndexError                  // no token where the application name should be

  /** The application table: name to body tokens. */
  type Table = map<string, seq<string>>

  const MAIN: string := "main"

  predicate AllOpen(s: seq<string>) {
    forall k :: 0 <= k < |s| ==> IsOpen(s[k])
  }

  /** `close` is the closing bracket of `open`. */
  predicate Matches(open: string, close: string) {
    IsOpen(open) && Pair(open) == close
  }

  // ---- check_brackets ----

  /**
   * The bracket check over the remaining tokens `ts`, given the stack of
   * brackets still open; success carries the final stack. Input that ends
   * with brackets still open is accepted.
   */
  function Brackets(ts: seq<string>, openings: seq<string>): Result<seq<string>, ParseError>
    decreases |ts|
  {
    if ts == [] then Ok(openings)
    else
      var t := ts[0];
      if IsOpen(t) then
        if t == APPLICATION_OPEN && openings != [] then Err(NestedApplication)
        else Brackets(ts[1..], openings + [t])
      else if IsClose(t) then
        if openings == [] then Err(TooManyClosing(t))
        else if !Matches(openings[|openings| - 1], t) then Err(BracketMismatch)
        else Brackets(ts[1..], openings[..|openings| - 1])
      else Brackets(ts[1..], openings)
  }

  lemma BracketsOpenAt(ts: seq<string>, i: nat, openings: seq<string>)
    requires i < |ts| && IsOpen(ts[i])
    ensures Brackets(ts[i..], openings) ==
      if ts[i] == APPLICATION_OPEN && openings != [] then Err(NestedApplication)
      else Brackets(ts[i + 1..], openings + [ts[i]])
  {
    assert ts[i..][0] == ts[i] && ts[i..][1..] == ts[i + 1..];
  }

  lemma BracketsCloseAt(ts: seq<string>, i: nat, openings: seq<string>)
    requires i < |ts| && IsClose(ts[i])
    ensures Brackets(ts[i..], openings) ==
      if openings == [] then Err(TooManyClosing(ts[i]))
      else if !Matches(openings[|openings| - 1], ts[i]) then Err(BracketMismatch)
      else Brackets(ts[i + 1..], openings[..|openings| - 1])
  {
    assert ts[i..][0] == ts[i] && ts[i..][1..] == ts[i + 1..];
  }

  lemma BracketsPlainAt(ts: seq<string>, i: nat, openings: seq<string>)
    requires i < |ts| && !IsOpen(ts[i]) && !IsClose(ts[i])
    ensures Brackets(ts[i..], openings) == Brackets(ts[i + 1..], openings)
  {
    assert ts[i..][0] == ts[i] && ts[i..][1..] == ts[i + 1..];
  }

  /** The counts table holds, for each opening bracket, how often it is on the stack. */
  predicate CountsMatch(counts: map<string, int>, openings: seq<string>) {
    && CONDITIONAL_OPEN in counts && APPLICATOR_OPEN in counts && APPLICATION_OPEN in counts
    && forall k :: k in counts ==> counts[k] == Count(openings, k)
  }

  /** With the counts in step with the stack, some count is positive exactly when the stack is non-empty. */
  lemma CountsPositive(counts: map<string, int>, openings: seq<string>)
    requires AllOpen(openings) && CountsMatch(counts, openings)
    ensures openings != [] <==>
      counts[CONDITIONAL_OPEN] > 0 || counts[APPLICATOR_OPEN] > 0 || counts[APPLICATION_OPEN] > 0
  {
    if openings != [] {
      assert openings[0] in openings;
    }
  }

  lemma CountsPush(counts: map<string, int>, openings: seq<string>, t: string)
    requires CountsMatch(counts, openings) && t in counts
    ensures CountsMatch(counts[t := counts[t] + 1], openings + [t])
  {
    forall k | k in counts ensures Count(openings + [t], k) == Count(openings, k) + (if k == t then 1 else 0) {
      CountAppend(openings, [t], k);
    }
  }

  lemma CountsPop(counts: map<string, int>, rest: seq<string>, t: string)
    requires CountsMatch(counts, rest + [t]) && t in counts
    ensures CountsMatch(counts[t := counts[t] - 1], rest)
  {
    forall k | k in counts ensures Count(rest + [t], k) == Count(rest, k) + (if k == t then 1 else 0) {
      CountAppend(rest, [t], k);
    }
  }

  /** The scan over the counts table that looks for a bracket kind still open. */
  method AnyCountPositive(counts: map<string, int>) returns (open: bool)
    requires CONDITIONAL_OPEN in counts && APPLICATOR_OPEN in counts && APPLICATION_OPEN in counts
    ensures open <==> counts[CONDITIONAL_OPEN] > 0 || counts[APPLICATOR_OPEN] > 0 || counts[APPLICATION_OPEN] > 0
  {
    var keys := [CONDITIONAL_OPEN, APPLICATOR_OPEN, APPLICATION_OPEN];
    var j := 0;
    while j < |keys|
      invariant j <= |keys|
      invariant forall m :: 0 <= m < j ==> counts[keys[m]] <= 0
    {
      if counts[keys[j]] > 0 {
        return true;
      }
      j := j + 1;
    }
    assert counts[keys[0]] <= 0 && counts[keys[1]] <= 0 && counts[keys[2]] <= 0;
    return false;
  }

  /**
   * `check_brackets`: one pass over the tokens with a count per opening
   * bracket and a stack of the brackets still open. Nothing means the check
   * passed.
   */
  method CheckBrackets(tokens: seq<string>) returns (err: Option<ParseError>)
    ensures err.None? <==> Brackets(tokens, []).Ok?
    ensures err.Some? ==> Brackets(tokens, []) == Err(err.value)
  {
    var counts := map[CONDITIONAL_OPEN := 0, APPLICATOR_OPEN := 0, APPLICATION_OPEN := 0];
    var openings: seq<string> := [];
    var i := 0;
    while i < |tokens|
      invariant i <= |tokens|
      invariant CountsMatch(counts, openings)
      invariant AllOpen(openings)
      invariant Brackets(tokens, []) == Brackets(tokens[i..], openings)
    {
      err, counts, openings := CheckToken(tokens, i, counts, openings);
      if err.Some? {
        return;
      }
      i := i + 1;
    }
    return None;
  }

  /** One iteration of the loop of `check_brackets`, at the token `tokens[i]`. */
  method CheckToken(tokens: seq<string>, i: nat, counts0: map<string, int>, openings0: seq<string>)
    returns (err: Option<ParseError>, counts: map<string, int>, openings: seq<string>)
    requires i < |tokens| && CountsMatch(counts0, openings0) && AllOpen(openings0)
    ensures err.Some? ==> Brackets(tokens[i..], openings0) == Err(err.value)
    ensures err.None? ==> CountsMatch(counts, openings) && AllOpen(openings)
    ensures err.None? ==> Brackets(tokens[i..], openings0) == Brackets(tokens[i + 1..], openings)
  {
    counts, openings := counts0, openings0;
    var token := tokens[i];
    if IsOpen(token) {
      BracketsOpenAt(tokens, i, openings0);
      openings := openings0 + [token];
      if token == APPLICATION_OPEN {
        // Applications must not be nested within any expression.
        CountsPositive(counts0, openings0);
        var open := AnyCountPositive(counts0);
        if open {
          return Some(NestedApplication), counts, openings;
        }
      }
      CountsPush(counts0, openings0, token);
      counts := counts0[token := counts0[token] + 1];
    } else if IsClose(token) {
      BracketsCloseAt(tokens, i, openings0);
      if openings0 == [] {
        return Some(TooManyClosing(token)), counts, openings;
      }
      var opening := openings0[|openings0| - 1];
      openings := openings0[..|openings0| - 1];
      assert openings0 == openings + [opening];
      if !Matches(opening, token) {
        return Some(BracketMismatch), counts, openings;
      }
      CountsPop(counts0, openings, opening);
      counts := counts0[opening := counts0[opening] - 1];
    } else {
      BracketsPlainAt(tokens, i, openings0);
    }
    err := None;
  }

  lemma {:induction false} BracketsAppend(p: seq<string>, q: seq<string>, openings: seq<string>)
    ensures Brackets(p + q, openings) ==
      match Brackets(p, openings)
      case Ok(o) => Brackets(q, o)
      case Err(e) => Err(e)
    decreases |p|
  {
    if p == [] {
      assert p + q == q;
    } else {
      assert (p + q)[0] == p[0];
      assert (p + q)[1..] == p[1..] + q;
      var t := p[0];
      if IsOpen(t) {
        BracketsAppend(p[1..], q, openings + [t]);
      } else if IsClose(t) {
        if openings != [] {
          BracketsAppend(p[1..], q, openings[..|openings| - 1]);
        }
      } else {
        BracketsAppend(p[1..], q, openings);
      }
    }
  }

  /** A `{` while any bracket is open is rejected: no definition inside an expression or another definition. */
  lemma NestedRejected(p: seq<string>, rest: seq<string>)
    requires Brackets(p, []).Ok? && Brackets(p, []).value != []
    ensures Brackets(p + [APPLICATION_OPEN] + rest, []) == Err(NestedApplication)
  {
    assert p + [APPLICATION_OPEN] + rest == p + ([APPLICATION_OPEN] + rest);
    BracketsAppend(p, [APPLICATION_OPEN] + rest, []);
  }

  /** A closer with nothing open is rejected. */
  lemma TooManyClosingRejected(p: seq<string>, c: string, rest: seq<string>)
    requires IsClose(c)
    requires Brackets(p, []) == Ok([])
    ensures Brackets(p + [c] + rest, []) == Err(TooManyClosing(c))
  {
    assert p + [c] + rest == p + ([c] + rest);
    BracketsAppend(p, [c] + rest, []);
  }

  /** A closer that is not the partner of the innermost open bracket is rejected. */
  lemma MismatchRejected(p: seq<string>, c: string, rest: seq<string>)
    requires IsClose(c)
    requires Brackets(p, []).Ok? && Brackets(p, []).value != []
    requires !Matches(Brackets(p, []).value[|Brackets(p, []).value| - 1], c)
    ensures Brackets(p + [c] + rest, []) == Err(BracketMismatch)
  {
    assert p + [c] + rest == p + ([c] + rest);
    BracketsAppend(p, [c] + rest, []);
  }

  predicate NoBracketTokens(ts: seq<string>) {
    forall k :: 0 <= k < |ts| ==> !IsOpen(ts[k]) && !IsClose(ts[k])
  }

  /** Tokens that are not brackets leave the stack as it is. */
  lemma {:induction false} PlainTokensAccepted(ts: seq<string>, openings: seq<string>)
    requires NoBracketTokens(ts)
    ensures Brackets(ts, openings) == Ok(openings)
    decreases |ts|
  {
    if ts != [] {
      assert NoBracketTokens(ts[1..]) by {
        forall k | 0 <= k < |ts[1..]| ensures !IsOpen(ts[1..][k]) && !IsClose(ts[1..][k]) {
          assert ts[1..][k] == ts[k + 1];
        }
      }
      PlainTokensAccepted(ts[1..], openings);
    }
  }

  /** There is no end-of-input check: an opened bracket that is never closed passes. */
  lemma UnclosedAccepted(o: string, ts: seq<string>)
    requires IsOpen(o) && NoBracketTokens(ts)
    ensures Brackets([o] + ts, []) == Ok([o])
  {
    assert ([o] + ts)[0] == o && ([o] + ts)[1..] == ts;
    assert [] + [o] == [o];
    PlainTokensAccepted(ts, [o]);
  }

  // ---- check_application_name ----

  /** An ASCII letter or an underscore. */
  predicate IsNameChar(c: char) {
    ('a' <= c <= 'z') || ('A' <= c <= 'Z') || c == '_'
  }

  predicate ValidName(name: string) {
    forall k :: 0 <= k < |name| ==> IsNameChar(name[k])
  }

  /** Position of the first character of `name` that may not appear in a name. */
  function FirstBadChar(name: string): (r: Option<nat>)
    ensures r.None? <==> ValidName(name)
    ensures r.Some? ==> r.value < |name| && !IsNameChar(name[r.value])
    ensures r.Some? ==> forall k :: 0 <= k < r.value ==> IsNameChar(name[k])
  {
    if name == [] then None
    else if !IsNameChar(name[0]) then Some(0)
    else match FirstBadChar(name[1..])
      case None => None
      case Some(k) => Some(k + 1)
  }

  /** `check_application_name`: passes exactly when every character is a letter or `_` (so the empty name passes). */
  function CheckApplicationName(name: string): (r: Option<ParseError>)
    ensures r.None? <==> ValidName(name)
    ensures r.Some? ==> r.value == InvalidName(name)
  {
    match FirstBadChar(name)
    case None => None
    case Some(_) => Some(InvalidName(name))
  }

  lemma EmptyNameAccepted()
    ensures CheckApplicationName("") == None
  {
  }

  lemma BraceNameRejected()
    ensures CheckApplicationName(APPLICATION_CLOSE) == Some(InvalidName(APPLICATION_CLOSE))
  {
    assert !IsNameChar(APPLICATION_CLOSE[0]);
  }

  // ---- parse_applications ----

  /**
   * The extraction loop as a function of its state: the current token list
   * `t`, the position `oi` of the last `{` seen, the cursor `index` and the
   * table built so far.
   */
  function Extract(t: seq<string>, oi: nat, index: nat, apps: Table): Result<Table, ParseError>
    requires oi <= index <= |t|
    decreases 2 * |t| - index
  {
    if index == |t| then Ok(apps[MAIN := t])
    else if t[index] == APPLICATION_OPEN then Extract(t, index, index + 1, apps)
    else if t[index] == APPLICATION_CLOSE then
      if oi + 1 >= |t| then Err(NameIndexError)
      else
        var name := t[oi + 1];
        if CheckApplicationName(name).Some? then Err(InvalidName(name))
        else
          var body := if oi + 2 <= index then t[oi + 2..index] else [];
          Extract(t[..oi] + t[index + 1..], oi, oi, apps[name := body])
    else Extract(t, oi, index + 1, apps)
  }

  /**
   * `parse_applications`: scan left to right; at each `}` take the token
   * after the last `{` as the name, store the tokens between name and `}`
   * as its body, cut the whole span out and resume where it began.
   */
  function Applications(ts: seq<string>): Result<Table, ParseError> {
    Extract(ts, 0, 0, map[])
  }

  method ParseApplications(tokens: seq<string>) returns (r: Result<Table, ParseError>)
    ensures r == Applications(tokens)
  {
    var applications: Table := map[];
    var toks := tokens;
    var openIndex := 0;
    var index := 0;
    while index < |toks|
      invariant openIndex <= index <= |toks|
      invariant Applications(tokens) == Extract(toks, openIndex, index, applications)
      decreases 2 * |toks| - index
    {
      if toks[index] == APPLICATION_OPEN {
        openIndex := index;
      } else if toks[index] == APPLICATION_CLOSE {
        if openIndex + 1 >= |toks| {
          return Err(NameIndexError);
        }
        var appName := toks[openIndex + 1];
        var nameError := CheckApplicationName(appName);
        if nameError.Some? {
          return Err(nameError.value);
        }
        applications := applications[appName := if openIndex + 2 <= index then toks[openIndex + 2..index] else []];
        toks := toks[..openIndex] + toks[index + 1..];
        index := openIndex;
        continue;
      }
      index := index + 1;
    }
    applications := applications[MAIN := toks];
    return Ok(applications);
  }

  // ---- a direct reference for well-formed input ----

  predicate IsBrace(t: string) {
    t == APPLICATION_OPEN || t == APPLICATION_CLOSE
  }

  predicate NoBraces(s: seq<string>) {
    forall k :: 0 <= k < |s| ==> !IsBrace(s[k])
  }

  /**
   * Braces alternate `{ } { } ...`, starting outside a definition; with
   * `closed`, the last definition is closed as well.
   */
  predicate Outside(s: seq<string>, closed: bool)
    decreases |s|, 1
  {
    if s == [] then true
    else if s[0] == APPLICATION_OPEN then Inside(s[1..], closed)
    else if s[0] == APPLICATION_CLOSE then false
    else Outside(s[1..], closed)
  }

  /** As `Outside`, but starting inside a definition whose `{` has been seen. */
  predicate Inside(s: seq<string>, closed: bool)
    decreases |s|, 0
  {
    if s == [] then !closed
    else if s[0] == APPLICATION_CLOSE then Outside(s[1..], closed)
    else if s[0] == APPLICATION_OPEN then false
    else Inside(s[1..], closed)
  }

  /** The first occurrence of `x` in `s`. */
  function IndexOf(s: seq<string>, x: string): (r: Option<nat>)
    ensures r.None? <==> x !in s
    ensures r.Some? ==> r.value < |s| && s[r.value] == x && x !in s[..r.value]
  {
    if s == [] then None
    else if s[0] == x then Some(0)
    else match IndexOf(s[1..], x)
      case None => None
      case Some(k) =>
        assert s[..k + 1] == [s[0]] + s[1..][..k];
        Some(k + 1)
  }

  /** What extraction leaves: the residual tokens and the definitions in source order. */
  datatype Extracted = Extracted(residue: seq<string>, defs: seq<(string, seq<string>)>)

  /**
   * Each `{` with a later `}` is a definition: the token after `{` is its
   * name and the tokens up to the first `}` its body. A `{` with no `}`
   * after it leaves the rest of the tokens in place.
   */
  function Definitions(ts: seq<string>): Result<Extracted, ParseError>
    decreases |ts|
  {
    if ts == [] then Ok(Extracted([], []))
    else if ts[0] == APPLICATION_OPEN then
      match IndexOf(ts, APPLICATION_CLOSE)
      case None => Ok(Extracted(ts, []))
      case Some(j) =>
        var name := ts[1];
        if !ValidName(name) then Err(InvalidName(name))
        else
          match Definitions(ts[j + 1..])
          case Err(e) => Err(e)
          case Ok(rest) => Ok(Extracted(rest.residue, [(name, if j >= 2 then ts[2..j] else [])] + rest.defs))
    else
      match Definitions(ts[1..])
      case Err(e) => Err(e)
      case Ok(rest) => Ok(Extracted([ts[0]] + rest.residue, rest.defs))
  }

  /** Enter the definitions into the table in order; a later one with the same name wins. */
  function Install(defs: seq<(string, seq<string>)>, apps: Table): Table
    decreases |defs|
  {
    if defs == [] then apps else Install(defs[1..], apps[defs[0].0 := defs[0].1])
  }

  function Assemble(prefix: seq<string>, d: Result<Extracted, ParseError>, apps: Table): Result<Table, ParseError> {
    match d
    case Err(e) => Err(e)
    case Ok(x) => Ok(Install(x.defs, apps)[MAIN := prefix + x.residue])
  }

  lemma NoBracesSlice(s: seq<string>, i: nat, j: nat)
    requires i <= j <= |s| && NoBraces(s)
    ensures NoBraces(s[i..j])
  {
    assert forall k :: 0 <= k < j - i ==> s[i..j][k] == s[i + k];
  }

  lemma NoBracesAppend(a: seq<string>, b: seq<string>)
    requires NoBraces(a) && NoBraces(b)
    ensures NoBraces(a + b)
  {
    assert forall k :: 0 <= k < |a + b| ==> (a + b)[k] == if k < |a| then a[k] else b[k - |a|];
  }

  /** The extraction loop, while outside a definition, agrees with the reference. */
  lemma {:induction false} ExtractOutside(t: seq<string>, oi: nat, index: nat, apps: Table)
    requires oi <= index <= |t|
    requires NoBraces(t[..index]) && Outside(t[index..], false)
    ensures Extract(t, oi, index, apps) == Assemble(t[..index], Definitions(t[index..]), apps)
    decreases 2 * |t| - index, 2
  {
    if index == |t| {
      assert t[..index] + [] == t;
    } else {
      var s := t[index..];
      assert s[0] == t[index] && s[1..] == t[index + 1..];
      if t[index] == APPLICATION_OPEN {
        assert t[index + 1..index + 1] == [];
        ExtractInside(t, index, index + 1, apps);
      } else {
        assert t[index] != APPLICATION_CLOSE;
        assert t[..index + 1] == t[..index] + [t[index]];
        NoBracesAppend(t[..index], [t[index]]);
        ExtractOutside(t, oi, index + 1, apps);
        match Definitions(s[1..])
        case Err(_) =>
        case Ok(rest) =>
          assert t[..index] + ([t[index]] + rest.residue) == t[..index + 1] + rest.residue;
      }
    }
  }

  /** The extraction loop, inside a definition opened at `oi`, agrees with the reference from `oi` on. */
  lemma {:induction false} ExtractInside(t: seq<string>, oi: nat, index: nat, apps: Table)
    requires oi < index <= |t| && t[oi] == APPLICATION_OPEN
    requires NoBraces(t[..oi]) && NoBraces(t[oi + 1..index]) && Inside(t[index..], false)
    ensures Extract(t, oi, index, apps) == Assemble(t[..oi], Definitions(t[oi..]), apps)
    decreases 2 * |t| - index, 1
  {
    if index == |t| {
      var s := t[oi..];
      assert s[0] == APPLICATION_OPEN;
      assert s[1..] == t[oi + 1..index];
      assert APPLICATION_CLOSE !in s by {
        forall k | 0 <= k < |s| ensures s[k] != APPLICATION_CLOSE {
          if k > 0 { assert s[k] == s[1..][k - 1]; }
        }
      }
      assert t[..oi] + t[oi..] == t;
    } else {
      var u := t[index..];
      assert u[0] == t[index] && u[1..] == t[index + 1..];
      if t[index] == APPLICATION_CLOSE {
        ExtractClose(t, oi, index, apps);
      } else {
        assert t[index] != APPLICATION_OPEN;
        assert t[oi + 1..index + 1] == t[oi + 1..index] + [t[index]];
        NoBracesAppend(t[oi + 1..index], [t[index]]);
        ExtractInside(t, oi, index + 1, apps);
      }
    }
  }

  /** The step at the `}` closing the definition opened at `oi`. */
  lemma {:induction false} ExtractClose(t: seq<string>, oi: nat, index: nat, apps: Table)
    requires oi < index < |t| && t[oi] == APPLICATION_OPEN && t[index] == APPLICATION_CLOSE
    requires NoBraces(t[..oi]) && NoBraces(t[oi + 1..index]) && Outside(t[index + 1..], false)
    ensures Extract(t, oi, index, apps) == Assemble(t[..oi], Definitions(t[oi..]), apps)
    decreases 2 * |t| - index, 0
  {
    var name := t[oi + 1];
    AssembleDefinition(t, oi, index, apps);
    if CheckApplicationName(name).None? {
      var body := if oi + 2 <= index then t[oi + 2..index] else [];
      var t' := t[..oi] + t[index + 1..];
      assert t'[..oi] == t[..oi];
      assert t'[oi..] == t[index + 1..];
      ExtractOutside(t', oi, oi, apps[name := body]);
    }
  }

  /** The definition opened at `oi` and closed at `index` is entered into the table before the definitions after it. */
  lemma AssembleDefinition(t: seq<string>, oi: nat, index: nat, apps: Table)
    requires oi < index < |t| && t[oi] == APPLICATION_OPEN && t[index] == APPLICATION_CLOSE
    requires NoBraces(t[oi + 1..index])
    ensures !ValidName(t[oi + 1]) ==> Assemble(t[..oi], Definitions(t[oi..]), apps) == Err(InvalidName(t[oi + 1]))
    ensures ValidName(t[oi + 1]) ==>
      Assemble(t[..oi], Definitions(t[oi..]), apps)
      == Assemble(t[..oi], Definitions(t[index + 1..]), apps[t[oi + 1] := if oi + 2 <= index then t[oi + 2..index] else []])
  {
    var s := t[oi..];
    var j := index - oi;
    assert s[0] == APPLICATION_OPEN && s[j] == APPLICATION_CLOSE;
    assert APPLICATION_CLOSE !in s[..j] by {
      assert s[..j] == [s[0]] + t[oi + 1..index];
    }
    assert IndexOf(s, APPLICATION_CLOSE) == Some(j);
    assert s[1] == t[oi + 1] && s[j + 1..] == t[index + 1..];
    var body := if oi + 2 <= index then t[oi + 2..index] else [];
    assert body == if j >= 2 then s[2..j] else [];
    match Definitions(t[index + 1..])
    case Err(_) =>
    case Ok(rest) =>
      assert ([(t[oi + 1], body)] + rest.defs)[1..] == rest.defs;
  }

  /** A stack whose bottom is `{`: some definition is still open. */
  predicate DefinitionOpen(openings: seq<string>) {
    openings != [] && openings[0] == APPLICATION_OPEN
  }

  /** `{` is never deeper in the stack than its bottom. */
  predicate BraceAtBottom(openings: seq<string>) {
    forall k :: 0 < k < |openings| ==> openings[k] != APPLICATION_OPEN
  }

  /** Input that passes the bracket check has alternating braces; it ends closed exactly when no definition is left open. */
  lemma {:induction false} CheckedBraces(ts: seq<string>, openings: seq<string>)
    requires BraceAtBottom(openings)
    requires Brackets(ts, openings).Ok?
    ensures DefinitionOpen(openings) ==> Inside(ts, !DefinitionOpen(Brackets(ts, openings).value))
    ensures !DefinitionOpen(openings) ==> Outside(ts, !DefinitionOpen(Brackets(ts, openings).value))
    decreases |ts|
  {
    if ts != [] {
      var t := ts[0];
      if IsOpen(t) {
        var o := openings + [t];
        assert o[0] == if openings == [] then t else openings[0];
        CheckedBraces(ts[1..], o);
      } else if IsClose(t) {
        var o := openings[..|openings| - 1];
        if t == APPLICATION_CLOSE {
          assert |openings| == 1;
        } else if DefinitionOpen(openings) {
          assert |openings| > 1;
        }
        CheckedBraces(ts[1..], o);
      } else {
        CheckedBraces(ts[1..], openings);
      }
    }
  }

  /** For input that passes the bracket check, extraction computes the reference definitions. */
  lemma ApplicationsChecked(ts: seq<string>)
    requires Brackets(ts, []).Ok?
    ensures Applications(ts) == Assemble([], Definitions(ts), map[])
  {
    CheckedBraces(ts, []);
    OutsideRelax(ts, !DefinitionOpen(Brackets(ts, []).value));
    ExtractOutside(ts, 0, 0, map[]);
  }

  lemma {:induction false} OutsideRelax(s: seq<string>, closed: bool)
    requires Outside(s, closed)
    ensures Outside(s, false)
    decreases |s|, 1
  {
    if s != [] {
      if s[0] == APPLICATION_OPEN { InsideRelax(s[1..], closed); }
      else { OutsideRelax(s[1..], closed); }
    }
  }

  lemma {:induction false} InsideRelax(s: seq<string>, closed: bool)
    requires Inside(s, closed)
    ensures Inside(s, false)
    decreases |s|, 0
  {
    if s != [] {
      if s[0] == APPLICATION_CLOSE { OutsideRelax(s[1..], closed); }
      else { InsideRelax(s[1..], closed); }
    }
  }

  predicate DefsWellFormed(defs: seq<(string, seq<string>)>) {
    forall k :: 0 <= k < |defs| ==> ValidName(defs[k].0) && NoBraces(defs[k].1)
  }

  /** Inside a definition, the tokens before the first `}` hold no brace, and what follows it is outside again. */
  lemma {:induction false} InsideUpToClose(s: seq<string>, closed: bool, j: nat)
    requires Inside(s, closed)
    requires j < |s| && s[j] == APPLICATION_CLOSE && APPLICATION_CLOSE !in s[..j]
    ensures NoBraces(s[..j]) && Outside(s[j + 1..], closed)
    decreases j
  {
    if j > 0 {
      assert s[0] == s[..j][0];
      assert s[1..][..j - 1] == s[1..j];
      assert s[..j] == [s[0]] + s[1..j];
      assert APPLICATION_CLOSE !in s[1..][..j - 1];
      InsideUpToClose(s[1..], closed, j - 1);
      assert s[1..][j - 1 + 1..] == s[j + 1..];
      NoBracesAppend([s[0]], s[1..j]);
    }
  }

  /** Inside a definition that is never closed, no brace follows. */
  lemma {:induction false} InsideUnclosed(s: seq<string>, closed: bool)
    requires Inside(s, closed) && APPLICATION_CLOSE !in s
    ensures !closed && NoBraces(s)
    decreases |s|
  {
    if s != [] {
      assert s[1..] == s[1..];
      InsideUnclosed(s[1..], closed);
      NoBracesAppend([s[0]], s[1..]);
      assert s == [s[0]] + s[1..];
    }
  }

  /**
   * The reference on alternating input: the residue holds no `}`, and no
   * `{` either once every definition is closed; every definition has a
   * valid name and a body without braces.
   */
  lemma {:induction false} DefinitionsShape(ts: seq<string>, closed: bool)
    requires Outside(ts, closed) && Definitions(ts).Ok?
    ensures APPLICATION_CLOSE !in Definitions(ts).value.residue
    ensures closed ==> NoBraces(Definitions(ts).value.residue)
    ensures DefsWellFormed(Definitions(ts).value.defs)
    decreases |ts|
  {
    if ts != [] {
      if ts[0] == APPLICATION_OPEN {
        match IndexOf(ts, APPLICATION_CLOSE)
        case None =>
          assert APPLICATION_CLOSE !in ts[1..];
          InsideUnclosed(ts[1..], closed);
        case Some(j) =>
          DefinitionAt(ts, closed, j);
          DefinitionsShape(ts[j + 1..], closed);
          DefinitionCons(ts, j);
      } else {
        DefinitionsShape(ts[1..], closed);
        var rest := Definitions(ts[1..]).value;
        if closed {
          NoBracesAppend([ts[0]], rest.residue);
        }
      }
    }
  }

  /** A definition `{ name body }` starting the input: its body holds no brace, and what follows it is outside again. */
  lemma DefinitionAt(ts: seq<string>, closed: bool, j: nat)
    requires ts != [] && ts[0] == APPLICATION_OPEN && IndexOf(ts, APPLICATION_CLOSE) == Some(j)
    requires Outside(ts, closed)
    ensures Outside(ts[j + 1..], closed)
    ensures NoBraces(if j >= 2 then ts[2..j] else [])
  {
    assert ts[1..][..j - 1] == ts[1..j];
    assert APPLICATION_CLOSE !in ts[1..][..j - 1];
    InsideUpToClose(ts[1..], closed, j - 1);
    assert ts[1..][j - 1 + 1..] == ts[j + 1..];
    if j >= 2 {
      NoBracesSlice(ts[1..j], 1, j - 1);
      assert ts[1..j][1..j - 1] == ts[2..j];
    }
  }

  /** The reference's result for a leading definition: the rest's residue, and the definition before the rest's. */
  lemma DefinitionCons(ts: seq<string>, j: nat)
    requires ts != [] && ts[0] == APPLICATION_OPEN && IndexOf(ts, APPLICATION_CLOSE) == Some(j)
    requires Definitions(ts).Ok? && NoBraces(if j >= 2 then ts[2..j] else [])
    requires DefsWellFormed(Definitions(ts[j + 1..]).value.defs)
    ensures Definitions(ts).value.residue == Definitions(ts[j + 1..]).value.residue
    ensures DefsWellFormed(Definitions(ts).value.defs)
  {
    var rest := Definitions(ts[j + 1..]).value;
    var defs := [(ts[1], if j >= 2 then ts[2..j] else [])] + rest.defs;
    assert Definitions(ts).value.defs == defs;
    assert forall k :: 1 <= k < |defs| ==> defs[k] == rest.defs[k - 1];
  }

  /** Without braces, the reference keeps every token and defines nothing. */
  lemma {:induction false} DefinitionsNoBraces(ts: seq<string>)
    requires NoBraces(ts)
    ensures Definitions(ts) == Ok(Extracted(ts, []))
    decreases |ts|
  {
    if ts != [] {
      NoBracesSlice(ts, 1, |ts|);
      DefinitionsNoBraces(ts[1..]);
      assert [ts[0]] + ts[1..] == ts;
    }
  }

  lemma {:induction false} OutsideNoBraces(ts: seq<string>)
    requires NoBraces(ts)
    ensures Outside(ts, true)
    decreases |ts|
  {
    if ts != [] {
      NoBracesSlice(ts, 1, |ts|);
      OutsideNoBraces(ts[1..]);
    }
  }

  /** A token list with no `{` or `}` comes back as the table `{main: tokens}`. */
  lemma ApplicationsNoBraces(ts: seq<string>)
    requires NoBraces(ts)
    ensures Applications(ts) == Ok(map[MAIN := ts])
  {
    OutsideNoBraces(ts);
    OutsideRelax(ts, true);
    ExtractOutside(ts, 0, 0, map[]);
    DefinitionsNoBraces(ts);
    assert ts[..0] == [] && ts[0..] == ts && [] + ts == ts;
  }

  // ---- parse ----

  /** The `$` token becomes `s0`, the parameter name of a generated C function. */
  function Substitute(ts: seq<string>): (r: seq<string>)
    ensures |r| == |ts|
    ensures forall i :: 0 <= i < |ts| ==> r[i] == if ts[i] == "$" then "s0" else ts[i]
  {
    if ts == [] then [] else [if ts[0] == "$" then "s0" else ts[0]] + Substitute(ts[1..])
  }

  /** The parse as a whole: bracket check, `$` substitution, the ban on `main`, extraction. */
  function ParseResult(ts: seq<string>): Result<Table, ParseError> {
    match Brackets(ts, [])
    case Err(e) => Err(e)
    case Ok(_) =>
      var s := Substitute(ts);
      if MAIN in s then Err(MainNotAllowed) else Applications(s)
  }

  /** `parse`. */
  method Parse(tokens: seq<string>) returns (r: Result<Table, ParseError>)
    ensures r == ParseResult(tokens)
  {
    var err := CheckBrackets(tokens);
    if err.Some? {
      return Err(err.value);
    }
    var toks := Substitute(tokens);
    var i := 0;
    while i < |toks|
      invariant i <= |toks|
      invariant MAIN !in toks[..i]
    {
      if toks[i] == MAIN {
        return Err(MainNotAllowed);
      }
      assert toks[..i + 1] == toks[..i] + [toks[i]];
      i := i + 1;
    }
    assert toks[..i] == toks;
    r := ParseApplications(toks);
  }

  /** The substitution does not touch brackets, so it does not change the bracket check. */
  lemma {:induction false} BracketsSubstitute(ts: seq<string>, openings: seq<string>)
    ensures Brackets(Substitute(ts), openings) == Brackets(ts, openings)
    decreases |ts|
  {
    if ts != [] {
      var s := Substitute(ts);
      assert s[1..] == Substitute(ts[1..]);
      var t := ts[0];
      if IsOpen(t) {
        BracketsSubstitute(ts[1..], openings + [t]);
      } else if IsClose(t) {
        if openings != [] {
          BracketsSubstitute(ts[1..], openings[..|openings| - 1]);
        }
      } else {
        BracketsSubstitute(ts[1..], openings);
      }
    }
  }

  /** Any token `main` anywhere is rejected once the brackets check out. */
  lemma ParseRejectsMain(ts: seq<string>)
    requires Brackets(ts, []).Ok? && MAIN in ts
    ensures ParseResult(ts) == Err(MainNotAllowed)
  {
    var i :| 0 <= i < |ts| && ts[i] == MAIN;
    assert Substitute(ts)[i] == MAIN;
  }

  /**
   * A successful parse is the reference extraction on the substituted
   * tokens; no name or body and no residual token is `$` or `main`, and
   * when every definition is closed the residue holds no braces.
   */
  lemma ParseOk(ts: seq<string>)
    requires ParseResult(ts).Ok?
    ensures Definitions(Substitute(ts)).Ok?
    ensures ParseResult(ts) == Assemble([], Definitions(Substitute(ts)), map[])
    ensures MAIN in ParseResult(ts).value
    ensures "$" !in ParseResult(ts).value[MAIN] && MAIN !in ParseResult(ts).value[MAIN]
    ensures !DefinitionOpen(Brackets(ts, []).value) ==> NoBraces(ParseResult(ts).value[MAIN])
  {
    var s := Substitute(ts);
    BracketsSubstitute(ts, []);
    ApplicationsChecked(s);
    CheckedBraces(s, []);
    DefinitionsShape(s, !DefinitionOpen(Brackets(s, []).value));
    var x := Definitions(s).value;
    var main := ParseResult(ts).value[MAIN];
    assert main == [] + x.residue;
    assert forall t :: t in x.residue ==> t in s by {
      ResidueFromTokens(s);
    }
    assert forall i :: 0 <= i < |s| ==> s[i] != "$";
  }

  /** Every residual token is one of the input's tokens. */
  lemma {:induction false} ResidueFromTokens(ts: seq<string>)
    requires Definitions(ts).Ok?
    ensures forall t :: t in Definitions(ts).value.residue ==> t in ts
    decreases |ts|
  {
    if ts != [] {
      if ts[0] == APPLICATION_OPEN {
        match IndexOf(ts, APPLICATION_CLOSE)
        case None =>
        case Some(j) =>
          ResidueFromTokens(ts[j + 1..]);
          forall t | t in ts[j + 1..] ensures t in ts {
            var k :| 0 <= k < |ts[j + 1..]| && ts[j + 1..][k] == t;
            assert ts[j + 1 + k] == t;
          }
      } else {
        ResidueFromTokens(ts[1..]);
        forall t | t in ts[1..] ensures t in ts {
          var k :| 0 <= k < |ts[1..]| && ts[1..][k] == t;
          assert ts[1 + k] == t;
        }
      }
    }
  }

  lemma {:induction false} SubstituteNoDollar(ts: seq<string>)
    requires "$" !in ts
    ensures Substitute(ts) == ts
  {
  }

  lemma ApplicatorBrackets()
    ensures Brackets(["[", "0", "1", "]"], []) == Ok([])
  {
    var ts := ["[", "0", "1", "]"];
    assert ts[0] == APPLICATOR_OPEN && IsOpen(ts[0]);
    assert ts[1..] == ["0", "1"] + ["]"];
    PlainTokensAccepted(["0", "1"], ["["]);
    BracketsAppend(["0", "1"], ["]"], ["["]);
    assert [] + ["["] == ["["];
    assert Brackets(["]"], ["["]) == Ok([]) by {
      assert ["]"][1..] == [];
      assert Matches("[", "]");
    }
  }

  /** `parse(['[', '0', '1', ']'])` is `{'main': ['[', '0', '1', ']']}`. */
  lemma ParseApplicator()
    ensures ParseResult(["[", "0", "1", "]"]) == Ok(map[MAIN := ["[", "0", "1", "]"]])
  {
    var ts := ["[", "0", "1", "]"];
    ApplicatorBrackets();
    assert NoBraces(ts);
    assert "$" !in ts && MAIN !in ts;
    ParsePlain(ts);
  }

  /** Balanced input without braces, `$` or `main` is the `main` body as it stands. */
  lemma ParsePlain(ts: seq<string>)
    requires NoBraces(ts) && Brackets(ts, []).Ok? && "$" !in ts && MAIN !in ts
    ensures ParseResult(ts) == Ok(map[MAIN := ts])
  {
    SubstituteNoDollar(ts);
    ApplicationsNoBraces(ts);
  }

  lemma BracketsPlainStep(t: string, ts: seq<string>, o: seq<string>)
    requires !IsOpen(t) && !IsClose(t)
    ensures Brackets([t] + ts, o) == Brackets(ts, o)
  {
    assert ([t] + ts)[0] == t && ([t] + ts)[1..] == ts;
  }

  lemma BracketsOpenStep(t: string, ts: seq<string>, o: seq<string>)
    requires IsOpen(t) && (t == APPLICATION_OPEN ==> o == [])
    ensures Brackets([t] + ts, o) == Brackets(ts, o + [t])
  {
    assert ([t] + ts)[0] == t && ([t] + ts)[1..] == ts;
  }

  lemma BracketsCloseStep(t: string, ts: seq<string>, o: seq<string>, top: string)
    requires IsClose(t) && Matches(top, t)
    ensures Brackets([t] + ts, o + [top]) == Brackets(ts, o)
  {
    assert ([t] + ts)[0] == t && ([t] + ts)[1..] == ts;
    assert (o + [top])[..|o + [top]| - 1] == o;
  }

  /** Tokens without `{` check the same on top of any stack. */
  lemma {:induction false} BracketsShift(b: seq<string>, o: seq<string>, x0: seq<string>, x1: seq<string>)
    requires APPLICATION_OPEN !in b
    requires Brackets(b, x0) == Ok(x1)
    ensures Brackets(b, o + x0) == Ok(o + x1)
    decreases |b|
  {
    if b == [] {
    } else {
      var t := b[0];
      assert t in b;
      assert APPLICATION_OPEN !in b[1..] by {
        forall k | 0 <= k < |b[1..]| ensures b[1..][k] != APPLICATION_OPEN {
          assert b[1..][k] == b[k + 1];
        }
      }
      if IsOpen(t) {
        assert (o + x0) + [t] == o + (x0 + [t]);
        BracketsShift(b[1..], o, x0 + [t], x1);
      } else if IsClose(t) {
        assert (o + x0)[|o + x0| - 1] == x0[|x0| - 1];
        assert (o + x0)[..|o + x0| - 1] == o + x0[..|x0| - 1];
        BracketsShift(b[1..], o, x0[..|x0| - 1], x1);
      } else {
        BracketsShift(b[1..], o, x0, x1);
      }
    }
  }

  lemma {:induction false} SubstituteAppend(a: seq<string>, b: seq<string>)
    ensures Substitute(a + b) == Substitute(a) + Substitute(b)
  {
    assert forall i :: 0 <= i < |a + b| ==> (a + b)[i] == if i < |a| then a[i] else b[i - |a|];
  }

  /** A valid name is neither a bracket nor `$`. */
  lemma ValidNamePlain(n: string)
    requires ValidName(n)
    ensures !IsOpen(n) && !IsClose(n) && n != "$"
  {
    if |n| == 1 { assert IsNameChar(n[0]); }
  }

  lemma OneDefinitionBrackets(n: string, b: seq<string>, r: seq<string>)
    requires ValidName(n)
    requires NoBraces(b) && Brackets(b, []) == Ok([])
    requires Brackets(r, []) == Ok([])
    ensures Brackets([APPLICATION_OPEN, n] + b + [APPLICATION_CLOSE] + r, []) == Ok([])
  {
    ValidNamePlain(n);
    assert APPLICATION_OPEN !in b by { assert forall k :: 0 <= k < |b| ==> !IsBrace(b[k]); }
    BracketsShift(b, [APPLICATION_OPEN], [], []);
    assert [APPLICATION_OPEN] + [] == [APPLICATION_OPEN];
    assert [APPLICATION_OPEN, n] + b + [APPLICATION_CLOSE] + r
      == [APPLICATION_OPEN] + ([n] + (b + ([APPLICATION_CLOSE] + r)));
    BracketsOpenStep(APPLICATION_OPEN, [n] + (b + ([APPLICATION_CLOSE] + r)), []);
    assert [] + [APPLICATION_OPEN] == [APPLICATION_OPEN];
    BracketsPlainStep(n, b + ([APPLICATION_CLOSE] + r), [APPLICATION_OPEN]);
    BracketsAppend(b, [APPLICATION_CLOSE] + r, [APPLICATION_OPEN]);
    assert Matches(APPLICATION_OPEN, APPLICATION_CLOSE);
    BracketsCloseStep(APPLICATION_CLOSE, r, [], APPLICATION_OPEN);
  }

  lemma OneDefinitionSubstitute(n: string, b: seq<string>, r: seq<string>)
    requires ValidName(n) && n != MAIN
    requires MAIN !in b && MAIN !in r && "$" !in r
    ensures Substitute([APPLICATION_OPEN, n] + b + [APPLICATION_CLOSE] + r)
      == [APPLICATION_OPEN, n] + Substitute(b) + [APPLICATION_CLOSE] + r
    ensures MAIN !in [APPLICATION_OPEN, n] + Substitute(b) + [APPLICATION_CLOSE] + r
  {
    ValidNamePlain(n);
    SubstituteNoDollar(r);
    SubstituteAppend([APPLICATION_OPEN, n] + b + [APPLICATION_CLOSE], r);
    SubstituteAppend([APPLICATION_OPEN, n] + b, [APPLICATION_CLOSE]);
    SubstituteAppend([APPLICATION_OPEN, n], b);
    assert Substitute([APPLICATION_OPEN, n]) == [APPLICATION_OPEN, n];
    assert Substitute([APPLICATION_CLOSE]) == [APPLICATION_CLOSE];
    SubstituteNoMain(b);
    NoMainAround(n, Substitute(b), r);
  }

  /** `$` becomes `s0`, so substitution brings in no `main`. */
  lemma SubstituteNoMain(b: seq<string>)
    requires MAIN !in b
    ensures MAIN !in Substitute(b)
  {
    forall k | 0 <= k < |b| ensures Substitute(b)[k] != MAIN {
      assert b[k] in b;
    }
  }

  lemma NoMainAround(n: string, sb: seq<string>, r: seq<string>)
    requires n != MAIN && MAIN !in sb && MAIN !in r
    ensures MAIN !in [APPLICATION_OPEN, n] + sb + [APPLICATION_CLOSE] + r
  {
    var s := [APPLICATION_OPEN, n] + sb + [APPLICATION_CLOSE] + r;
    forall k | 0 <= k < |s| ensures s[k] != MAIN {
      if 2 <= k < 2 + |sb| {
        assert s[k] == sb[k - 2];
      } else if k > 2 + |sb| {
        assert s[k] == r[k - 3 - |sb|];
      }
    }
  }

  lemma OneDefinitionExtract(n: string, sb: seq<string>, r: seq<string>)
    requires ValidName(n) && NoBraces(sb) && NoBraces(r)
    ensures Definitions([APPLICATION_OPEN, n] + sb + [APPLICATION_CLOSE] + r) == Ok(Extracted(r, [(n, sb)]))
  {
    ValidNamePlain(n);
    var s := [APPLICATION_OPEN, n] + sb + [APPLICATION_CLOSE] + r;
    var j := 2 + |sb|;
    assert APPLICATION_CLOSE !in s[..j] by {
      assert s[..j] == [APPLICATION_OPEN, n] + sb;
      assert forall k :: 0 <= k < |sb| ==> !IsBrace(sb[k]);
    }
    assert s[j] == APPLICATION_CLOSE;
    assert IndexOf(s, APPLICATION_CLOSE) == Some(j);
    assert s[0] == APPLICATION_OPEN && s[1] == n && s[2..j] == sb && s[j + 1..] == r;
    DefinitionsNoBraces(r);
    assert [(n, sb)] + [] == [(n, sb)];
  }

  /**
   * A program made of one definition `{ n b }` followed by `r`: the table
   * maps `n` to `b` (with `$` substituted) and `main` to `r`, provided the
   * body's brackets balance and neither part has braces or `main`.
   */
  lemma ParseOneDefinition(n: string, b: seq<string>, r: seq<string>)
    requires ValidName(n) && n != MAIN
    requires NoBraces(b) && Brackets(b, []) == Ok([]) && MAIN !in b
    requires NoBraces(r) && Brackets(r, []) == Ok([]) && MAIN !in r && "$" !in r
    ensures ParseResult([APPLICATION_OPEN, n] + b + [APPLICATION_CLOSE] + r)
      == Ok(map[n := Substitute(b), MAIN := r])
  {
    var ts := [APPLICATION_OPEN, n] + b + [APPLICATION_CLOSE] + r;
    var sb := Substitute(b);
    var s := [APPLICATION_OPEN, n] + sb + [APPLICATION_CLOSE] + r;
    OneDefinitionBrackets(n, b, r);
    OneDefinitionSubstitute(n, b, r);
    assert ParseResult(ts) == Applications(s);
    BracketsSubstitute(ts, []);
    ApplicationsChecked(s);
    assert NoBraces(sb) by {
      forall k | 0 <= k < |sb| ensures !IsBrace(sb[k]) {
        assert !IsBrace(b[k]);
      }
    }
    OneDefinitionExtract(n, sb, r);
    assert Install([(n, sb)], map[]) == map[n := sb] by {
      assert [(n, sb)][1..] == [];
    }
    assert [] + r == r;
  }

  /** `{inc [$ +]} [0 inc]` defines `inc` as `[s0 +]` and leaves `[0 inc]` as `main`. */
  lemma ParseInc()
    ensures ParseResult(["{", "inc"] + ["[", "$", "+", "]"] + ["}"] + ["[", "0", "inc", "]"])
      == Ok(map["inc" := ["[", "s0", "+", "]"], MAIN := ["[", "0", "inc", "]"]])
  {
    assert ValidName("inc") by {
      assert IsNameChar('i') && IsNameChar('n') && IsNameChar('c');
    }
    IncBody();
    IncRest();
    ParseOneDefinition("inc", ["[", "$", "+", "]"], ["[", "0", "inc", "]"]);
  }

  lemma IncBody()
    ensures Brackets(["[", "$", "+", "]"], []) == Ok([])
    ensures NoBraces(["[", "$", "+", "]"]) && MAIN !in ["[", "$", "+", "]"]
    ensures Substitute(["[", "$", "+", "]"]) == ["[", "s0", "+", "]"]
  {
    var b := ["[", "$", "+", "]"];
    assert b == ["["] + (["$", "+"] + ["]"]);
    BracketsOpenStep("[", ["$", "+"] + ["]"], []);
    assert [] + ["["] == ["["];
    PlainTokensAccepted(["$", "+"], ["["]);
    BracketsAppend(["$", "+"], ["]"], ["["]);
    assert Matches("[", "]");
    BracketsCloseStep("]", [], [], "[");
    assert [] + ["["] == ["["] && ["]"] + [] == ["]"];
  }

  lemma IncRest()
    ensures Brackets(["[", "0", "inc", "]"], []) == Ok([])
    ensures NoBraces(["[", "0", "inc", "]"]) && MAIN !in ["[", "0", "inc", "]"] && "$" !in ["[", "0", "inc", "]"]
  {
    var r := ["[", "0", "inc", "]"];
    assert r == ["["] + (["0", "inc"] + ["]"]);
    BracketsOpenStep("[", ["0", "inc"] + ["]"], []);
    assert [] + ["["] == ["["];
    PlainTokensAccepted(["0", "inc"], ["["]);
    BracketsAppend(["0", "inc"], ["]"], ["["]);
    assert Matches("[", "]");
    BracketsCloseStep("]", [], [], "[");
    assert ["]"] + [] == ["]"];
  }
}
