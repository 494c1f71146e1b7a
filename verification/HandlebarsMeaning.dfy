/** What a template means, read off the syntax tree without opcodes or stacks, and the proof
    that the opcodes of HandlebarsCompiler run on HandlebarsMachine yield that meaning. */
module HandlebarsMeaning {
  import opened Wrappers
  import opened HandlebarsCompiler
  import opened HandlebarsMachine

  // ---------------------------------------------------------------------------
  // The meaning of expressions.

  function Selects(base: Val, parts: seq<string>, falsy: bool): Val
    decreases |parts|
  {
    if parts == [] then base else Selects(VSelect(base, parts[0], falsy), parts[1..], falsy)
  }

  function PathVal(scopes: Scopes, path: PathExpr, falsy: bool): Val {
    if path.parts == [] then VContext(path.depth)
    else
      var blockParam := if path.depth == 0 && !ScopedId(path.original)
                        then BlockParamIndex(scopes, path.parts[0]) else None;
      if blockParam.Some? then Selects(VBlockParam(blockParam.value.0, blockParam.value.1), path.parts[1..], false)
      else if path.parts[0] == "" then VContext(path.depth)
      else if path.data then Selects(VData(path.depth), path.parts, true)
      else Selects(VContext(path.depth), path.parts, falsy)
  }

  /** Where a chain of lookups starts, and the names it looks up. */
  function Root(val: Val): Val {
    if val.VSelect? then Root(val.base) else val
  }

  function Lookups(val: Val): seq<string> {
    if val.VSelect? then Lookups(val.base) + [val.name] else []
  }

  lemma {:induction false} SelectsInOrder(base: Val, parts: seq<string>, falsy: bool)
    ensures Root(Selects(base, parts, falsy)) == Root(base)
    ensures Lookups(Selects(base, parts, falsy)) == Lookups(base) + parts
    decreases |parts|
  {
    if parts == [] {
      assert Lookups(base) + parts == Lookups(base);
    } else {
      SelectsInOrder(VSelect(base, parts[0], falsy), parts[1..], falsy);
      assert Lookups(base) + [parts[0]] + parts[1..] == Lookups(base) + parts;
    }
  }

  /** A path is looked up segment by segment, from the block parameter that binds its first segment innermost, or
      else from the data or the context at its depth. */
  lemma {:induction false} PathLooksUp(scopes: Scopes, path: PathExpr, falsy: bool)
    ensures var val := PathVal(scopes, path, falsy);
            if path.parts != [] && path.depth == 0 && Unscoped(path.original)
               && exists k :: 0 <= k < |scopes| && Binds(scopes[k], path.parts[0]) then
              && Root(val).VBlockParam? && Root(val).scope < |scopes|
              && var names := scopes[Root(val).scope];
              && (forall k :: 0 <= k < Root(val).scope ==> !Binds(scopes[k], path.parts[0]))
              && names.Some? && Root(val).index < |names.value| && names.value[Root(val).index] == path.parts[0]
              && Lookups(val) == path.parts[1..]
            else if path.parts == [] || path.parts[0] == "" then val == VContext(path.depth)
            else Root(val) == (if path.data then VData(path.depth) else VContext(path.depth))
                 && Lookups(val) == path.parts
  {
    if path.parts != [] {
      ThisExactly(path.original);
      InnermostWins(scopes, path.parts[0]);
      var bound := BlockParamIndex(scopes, path.parts[0]);
      if bound.Some? {
        SelectsInOrder(VBlockParam(bound.value.0, bound.value.1), path.parts[1..], false);
      }
      SelectsInOrder(VData(path.depth), path.parts, true);
      SelectsInOrder(VContext(path.depth), path.parts, falsy);
    }
  }

  /** A literal that heads a call is the name of a property of the current context, unless it is bound. */
  lemma {:induction false} LiteralLooksUp(scopes: Scopes, call: Call, falsy: bool)
    requires call.head.HeadLiteral? && call.head.original != ""
    requires forall k :: 0 <= k < |scopes| ==> !Binds(scopes[k], call.head.original)
    ensures PathVal(scopes, HeadOf(call), falsy) == VSelect(VContext(0), call.head.original, falsy)
  {
    var name := call.head.original;
    InnermostWins(scopes, name);
    hide BlockParamIndex, ScopedId;
    assert HeadOf(call) == PathExpr(name, [name], 0, false);
    assert [name][1..] == [];
    assert Selects(VSelect(VContext(0), name, falsy), [], falsy) == VSelect(VContext(0), name, falsy);
    assert Selects(VContext(0), [name], falsy) == VSelect(VContext(0), name, falsy);
  }

  function ExprVal(o: Options, scopes: Scopes, e: Expr): Val
    decreases e, 1
  {
    match e
    case PathExpression(path) => PathVal(scopes, path, false)
    case StringLiteral(value) => VString(value)
    case Literal(text) => VLiteral(text)
    case SubExpression(call) =>
      if ClassifySexpr(o, scopes, HeadOf(call), true) == Simple then VLambda(PathVal(scopes, HeadOf(call), false))
      else HelperVal(o, scopes, call, VNull, VNull)
  }

  function ParamVals(o: Options, scopes: Scopes, params: seq<Expr>): (vals: seq<Val>)
    ensures |vals| == |params|
    decreases params, 0
  {
    if params == [] then [] else [ExprVal(o, scopes, params[0])] + ParamVals(o, scopes, params[1..])
  }

  function PairVals(o: Options, scopes: Scopes, pairs: seq<Pair>): (vals: seq<Val>)
    ensures |vals| == |pairs|
    decreases pairs, 0
  {
    if pairs == [] then [] else [ExprVal(o, scopes, pairs[0].value)] + PairVals(o, scopes, pairs[1..])
  }

  /** Of two pairs with one key the first counts. */
  function Assigned(base: map<string, Val>, pairs: seq<Pair>, vals: seq<Val>): map<string, Val>
    requires |pairs| == |vals|
  {
    if pairs == [] then base else Assigned(base, pairs[1..], vals[1..])[pairs[0].key := vals[0]]
  }

  function HashVal(o: Options, scopes: Scopes, hash: Hash, omitEmpty: bool): Val
    decreases hash, 1
  {
    match hash
    case NoHash => EmptyHashVal(omitEmpty)
    case Hash(pairs) => VHash(Assigned(map[], pairs, PairVals(o, scopes, pairs)))
  }

  function HelperVal(o: Options, scopes: Scopes, call: Call, program: Val, inverse: Val): Val
    decreases call, 1
  {
    var path := HeadOf(call);
    var params := ParamVals(o, scopes, call.params);
    var hash := HashVal(o, scopes, call.hash, false);
    if Known(o, path) then VKnownHelper(path.parts[0], params, MakeOptions(path.parts[0], hash, program, inverse))
    else VHelper(path.original, SimpleId(path), PathVal(scopes, path, true), params,
                 MakeOptions(path.original, hash, program, inverse))
  }

  /** A helper is called with its source parameters, in order. */
  lemma {:induction false} ParamsInOrder(o: Options, scopes: Scopes, params: seq<Expr>, i: nat)
    requires i < |params|
    ensures ParamVals(o, scopes, params)[i] == ExprVal(o, scopes, params[i])
  {
    if i > 0 {
      ParamsInOrder(o, scopes, params[1..], i - 1);
    }
  }

  lemma {:induction false} ValuesInOrder(o: Options, scopes: Scopes, pairs: seq<Pair>, i: nat)
    requires i < |pairs|
    ensures PairVals(o, scopes, pairs)[i] == ExprVal(o, scopes, pairs[i].value)
  {
    if i > 0 {
      ValuesInOrder(o, scopes, pairs[1..], i - 1);
    }
  }

  /** Every key of a hash holds its own value, that of the first pair with the key; no other key is there.  This is
      the hash as the machine builds it, before it is printed. */
  lemma {:induction false} KeysHoldTheirValues(o: Options, scopes: Scopes, pairs: seq<Pair>)
    ensures var hash := HashVal(o, scopes, Hash(pairs), false);
            && hash.VHash?
            && (forall key :: key in hash.values <==> exists i :: 0 <= i < |pairs| && pairs[i].key == key)
            && (forall i :: 0 <= i < |pairs| && (forall j :: 0 <= j < i ==> pairs[j].key != pairs[i].key) ==>
                  hash.values[pairs[i].key] == ExprVal(o, scopes, pairs[i].value))
  {
    var vals := PairVals(o, scopes, pairs);
    var hash := Assigned(map[], pairs, vals);
    AssignedKeys(pairs, vals);
    forall i | 0 <= i < |pairs| && (forall j :: 0 <= j < i ==> pairs[j].key != pairs[i].key)
      ensures pairs[i].key in hash && hash[pairs[i].key] == ExprVal(o, scopes, pairs[i].value)
    {
      AssignedFirst(pairs, vals, i);
      ValuesInOrder(o, scopes, pairs, i);
    }
  }

  lemma {:induction false} AssignedKeys(pairs: seq<Pair>, vals: seq<Val>)
    requires |pairs| == |vals|
    ensures forall key :: key in Assigned(map[], pairs, vals) <==> exists i :: 0 <= i < |pairs| && pairs[i].key == key
  {
    if pairs != [] {
      AssignedKeys(pairs[1..], vals[1..]);
      var rest := Assigned(map[], pairs[1..], vals[1..]);
      forall key ensures key in Assigned(map[], pairs, vals) <==> exists i :: 0 <= i < |pairs| && pairs[i].key == key {
        if key in rest {
          var i :| 0 <= i < |pairs[1..]| && pairs[1..][i].key == key;
          assert pairs[i + 1].key == key;
        }
        if i :| 0 < i < |pairs| && pairs[i].key == key {
          assert pairs[1..][i - 1].key == key;
        }
      }
    }
  }

  lemma {:induction false} AssignedFirst(pairs: seq<Pair>, vals: seq<Val>, i: nat)
    requires i < |pairs| == |vals|
    requires forall j :: 0 <= j < i ==> pairs[j].key != pairs[i].key
    ensures pairs[i].key in Assigned(map[], pairs, vals)
    ensures Assigned(map[], pairs, vals)[pairs[i].key] == vals[i]
  {
    if i > 0 {
      assert pairs[0].key != pairs[i].key;
      AssignedFirst(pairs[1..], vals[1..], i - 1);
    }
  }

  // ---------------------------------------------------------------------------
  // The machine on expressions.

  function Vals(items: seq<Item>): (vals: seq<Val>)
    ensures |vals| == |items|
    ensures forall i :: 0 <= i < |items| ==> vals[i] == items[i].val
  {
    seq(|items|, i requires 0 <= i < |items| => items[i].val)
  }

  /** `st` with `items` on top, and another `lastContext`. */
  function Above(st: State, items: seq<Item>, context: nat): State {
    st.(inlineStack := st.inlineStack + items, lastContext := context)
  }

  /** Outside every hash literal none is saved either. */
  predicate HashSaved(st: State) {
    st.hash.None? ==> st.hashes == []
  }

  lemma {:induction false} ExecJoin(a: seq<Opcode>, b: seq<Opcode>, st: State, children: nat)
    ensures Exec(a, st, children).None? ==> Exec(a + b, st, children).None?
    ensures Exec(a, st, children).Some? ==>
              Exec(a + b, st, children) == Exec(b, Exec(a, st, children).value, children)
    decreases |a|
  {
    hide Exec1;
    if a == [] {
      assert a + b == b;
    } else {
      assert (a + b)[0] == a[0] && (a + b)[1..] == a[1..] + b;
      if Exec1(a[0], st, children).Some? {
        ExecJoin(a[1..], b, Exec1(a[0], st, children).value, children);
      }
    }
  }

  lemma {:induction false} ExecNone(st: State, children: nat)
    ensures Exec([], st, children) == Some(st)
  {
  }

  lemma {:induction false} ExecOne(op: Opcode, st: State, children: nat)
    ensures Exec([op], st, children) == Exec1(op, st, children)
  {
    hide Exec1;
    assert [op][1..] == [];
    var next := Exec1(op, st, children);
    if next.Some? {
      assert Exec([], next.value, children) == next;
    }
  }

  /** `a`, then `b`. */
  lemma {:induction false} Then(a: seq<Opcode>, b: seq<Opcode>, st: State, mid: State, children: nat)
    requires Exec(a, st, children) == Some(mid)
    ensures Exec(a + b, st, children) == Exec(b, mid, children)
  {
    ExecJoin(a, b, st, children);
  }

  lemma {:induction false} PopTop(st: State, item: Item)
    ensures Pop(st.(inlineStack := st.inlineStack + [item])) == Some((item.val, st))
  {
    assert (st.inlineStack + [item])[..|st.inlineStack|] == st.inlineStack;
  }

  lemma {:induction false} PopItems(st: State, items: seq<Item>)
    ensures PopParams(st.(inlineStack := st.inlineStack + items), |items|) == Some((Vals(items), st))
    decreases |items|
  {
    if items == [] {
      assert st.inlineStack + items == st.inlineStack;
      assert Vals(items) == [];
    } else {
      var last := |items| - 1;
      var below := st.(inlineStack := st.inlineStack + items[..last]);
      assert st.inlineStack + items == below.inlineStack + [items[last]];
      PopTop(below, items[last]);
      PopItems(st, items[..last]);
      assert Vals(items) == Vals(items[..last]) + [items[last].val];
    }
  }

  /** The stack as every call finds it: parameters, program, inverse, hash. */
  lemma {:induction false} SetupItems(st: State, items: seq<Item>, program: Item, inverse: Item, hash: Item,
                                      name: string)
    ensures SetupParams(st.(inlineStack := st.inlineStack + items + [program, inverse, hash]), name, |items|)
            == Some((Vals(items), MakeOptions(name, hash.val, program.val, inverse.val), st))
  {
    var st3 := st.(inlineStack := st.inlineStack + items);
    var st2 := st3.(inlineStack := st3.inlineStack + [program]);
    var st1 := st2.(inlineStack := st2.inlineStack + [inverse]);
    assert st.inlineStack + items + [program, inverse, hash] == st1.inlineStack + [hash];
    PopTop(st1, hash);
    PopTop(st2, inverse);
    PopTop(st3, program);
    PopItems(st, items);
  }

  lemma {:induction false} SelectTop(st: State, item: Item, name: string, falsy: bool)
    ensures Select(st.(inlineStack := st.inlineStack + [item]), name, falsy)
            == Some(st.(inlineStack := st.inlineStack + [Item(VSelect(item.val, name, falsy), false)]))
  {
    assert (st.inlineStack + [item])[..|st.inlineStack|] == st.inlineStack;
  }

  lemma {:induction false} PathResolves(st: State, item: Item, parts: seq<string>, falsy: bool)
    returns (literal: bool)
    ensures ResolvePath(st.(inlineStack := st.inlineStack + [item]), parts, falsy)
            == Some(st.(inlineStack := st.inlineStack + [Item(Selects(item.val, parts, falsy), literal)]))
    decreases |parts|
  {
    if parts == [] {
      literal := item.literal;
    } else {
      SelectTop(st, item, parts[0], falsy);
      literal := PathResolves(st, Item(VSelect(item.val, parts[0], falsy), false), parts[1..], falsy);
    }
  }

  lemma {:induction false} PathRuns(scopes: Scopes, path: PathExpr, falsy: bool, st: State, children: nat)
    returns (literal: bool)
    ensures Exec(PathOps(scopes, path, falsy), st, children)
            == Some(Above(st, [Item(PathVal(scopes, path, falsy), literal)], path.depth))
  {
    var ops := PathOps(scopes, path, falsy);
    var start := st.(lastContext := path.depth);
    assert ops == [ops[0]] + [ops[1]];
    ExecOne(ops[0], st, children);
    Then([ops[0]], [ops[1]], st, start, children);
    ExecOne(ops[1], start, children);
    literal := true;
    match ops[1]
    case LookupBlockParam(scope, index, parts) =>
      literal := PathResolves(start, Item(VBlockParam(scope, index), false), parts[1..], false);
    case LookupData(depth, parts) =>
      literal := PathResolves(start, Item(VData(depth), true), parts, true);
    case LookupOnContext(parts, _) =>
      literal := PathResolves(start, Item(VContext(path.depth), true), parts, falsy);
    case PushContext =>
  }

  lemma {:induction false} LambdaRuns(scopes: Scopes, path: PathExpr, st: State, children: nat)
    ensures Exec(SimpleOps(scopes, path), st, children)
            == Some(Above(st, [Item(VLambda(PathVal(scopes, path, false)), false)], path.depth))
  {
    hide PathOps, PathVal;
    var literal := PathRuns(scopes, path, false, st, children);
    var item := Item(PathVal(scopes, path, false), literal);
    var mid := Above(st, [item], path.depth);
    Then(PathOps(scopes, path, false), [ResolvePossibleLambda], st, mid, children);
    ExecOne(ResolvePossibleLambda, mid, children);
    PopTop(st.(lastContext := path.depth), item);
  }

  /** The opcodes of an expression push its value, and leave the rest of the machine alone. */
  lemma {:induction false} ExprRuns(o: Options, scopes: Scopes, e: Expr, st: State, children: nat)
    returns (item: Item, context: nat)
    requires HashSaved(st)
    ensures item.val == ExprVal(o, scopes, e)
    ensures Exec(ExprOps(o, scopes, e), st, children) == Some(Above(st, [item], context))
    decreases e, 1
  {
    hide PathOps, PathVal, HelperOps, HelperVal, ParamsOps;
    match e
    case PathExpression(path) =>
      var literal := PathRuns(scopes, path, false, st, children);
      item, context := Item(PathVal(scopes, path, false), literal), path.depth;
    case StringLiteral(value) =>
      ExecOne(PushString(value), st, children);
      item, context := Item(VString(value), true), st.lastContext;
    case Literal(text) =>
      ExecOne(PushLiteral(text), st, children);
      item, context := Item(VLiteral(text), true), st.lastContext;
    case SubExpression(call) =>
      if ClassifySexpr(o, scopes, HeadOf(call), true) == Simple {
        LambdaRuns(scopes, HeadOf(call), st, children);
        item, context := Item(VLambda(PathVal(scopes, HeadOf(call), false)), false), HeadOf(call).depth;
      } else {
        context := HelperRuns(o, scopes, call, None, None, st, children);
        item := Item(HelperVal(o, scopes, call, VNull, VNull), false);
      }
  }

  lemma {:induction false} ParamsRun(o: Options, scopes: Scopes, params: seq<Expr>, st: State, children: nat)
    returns (items: seq<Item>, context: nat)
    requires HashSaved(st)
    ensures Vals(items) == ParamVals(o, scopes, params)
    ensures Exec(ParamsOps(o, scopes, params), st, children) == Some(Above(st, items, context))
    decreases params, 0
  {
    hide ExprOps, ExprVal, Exec, Exec1;
    if params == [] {
      items, context := [], st.lastContext;
      assert st.inlineStack + [] == st.inlineStack;
      ExecNone(st, children);
    } else {
      var item, c := ExprRuns(o, scopes, params[0], st, children);
      var mid := Above(st, [item], c);
      Then(ExprOps(o, scopes, params[0]), ParamsOps(o, scopes, params[1..]), st, mid, children);
      var rest;
      rest, context := ParamsRun(o, scopes, params[1..], mid, children);
      items := [item] + rest;
      assert mid.inlineStack + rest == st.inlineStack + items;
    }
  }

  lemma {:induction false} PairsRun(o: Options, scopes: Scopes, pairs: seq<Pair>, st: State, children: nat)
    returns (items: seq<Item>, context: nat)
    requires HashSaved(st)
    ensures Vals(items) == PairVals(o, scopes, pairs)
    ensures Exec(PairsOps(o, scopes, pairs), st, children) == Some(Above(st, items, context))
    decreases pairs, 0
  {
    hide ExprOps, ExprVal, Exec, Exec1;
    if pairs == [] {
      items, context := [], st.lastContext;
      assert st.inlineStack + [] == st.inlineStack;
      ExecNone(st, children);
    } else {
      var item, c := ExprRuns(o, scopes, pairs[0].value, st, children);
      var mid := Above(st, [item], c);
      Then(ExprOps(o, scopes, pairs[0].value), PairsOps(o, scopes, pairs[1..]), st, mid, children);
      var rest;
      rest, context := PairsRun(o, scopes, pairs[1..], mid, children);
      items := [item] + rest;
      assert mid.inlineStack + rest == st.inlineStack + items;
    }
  }

  /** Assigning last to first pops each key its own value. */
  lemma {:induction false} AssignRuns(pairs: seq<Pair>, items: seq<Item>, base: map<string, Val>, st: State,
                                      children: nat)
    requires |pairs| == |items|
    requires st.hash == Some(base)
    ensures Exec(AssignOps(pairs), st.(inlineStack := st.inlineStack + items), children)
            == Some(st.(hash := Some(Assigned(base, pairs, Vals(items)))))
    decreases |pairs|
  {
    hide Exec, Exec1;
    if pairs == [] {
      assert st.inlineStack + items == st.inlineStack;
      assert Exec([], st, children) == Some(st) by { ExecNone(st, children); }
    } else {
      var below := st.(inlineStack := st.inlineStack + [items[0]]);
      assert st.inlineStack + items == below.inlineStack + items[1..];
      AssignRuns(pairs[1..], items[1..], base, below, children);
      assert Vals(items)[1..] == Vals(items[1..]);
      var rest := Assigned(base, pairs[1..], Vals(items[1..]));
      Then(AssignOps(pairs[1..]), [AssignToHash(pairs[0].key)], st.(inlineStack := st.inlineStack + items),
           below.(hash := Some(rest)), children);
      AssignLast(pairs[0].key, items[0], rest, st, children);
    }
  }

  lemma {:induction false} AssignLast(key: string, item: Item, rest: map<string, Val>, st: State, children: nat)
    ensures Exec([AssignToHash(key)], st.(inlineStack := st.inlineStack + [item], hash := Some(rest)), children)
            == Some(st.(hash := Some(rest[key := item.val])))
  {
    ExecOne(AssignToHash(key), st.(inlineStack := st.inlineStack + [item], hash := Some(rest)), children);
    PopTop(st.(hash := Some(rest)), item);
  }

  /** A hash under construction is saved while an inner one is built, and restored. */
  lemma {:induction false} HashRuns(o: Options, scopes: Scopes, hash: Hash, omitEmpty: bool, st: State, children: nat)
    returns (item: Item, context: nat)
    requires HashSaved(st)
    ensures item.val == HashVal(o, scopes, hash, omitEmpty)
    ensures Exec(HashOps(o, scopes, hash, omitEmpty), st, children) == Some(Above(st, [item], context))
    decreases hash, 1
  {
    match hash
    case NoHash =>
      ExecOne(EmptyHash(omitEmpty), st, children);
      item, context := Item(EmptyHashVal(omitEmpty), true), st.lastContext;
    case Hash(pairs) => item, context := HashLiteralRuns(o, scopes, pairs, omitEmpty, st, children);
  }

  lemma {:induction false} HashLiteralRuns(o: Options, scopes: Scopes, pairs: seq<Pair>, omitEmpty: bool, st: State,
                                           children: nat)
    returns (item: Item, context: nat)
    requires HashSaved(st)
    ensures item.val == VHash(Assigned(map[], pairs, PairVals(o, scopes, pairs)))
    ensures Exec([PushHash] + PairsOps(o, scopes, pairs) + AssignOps(pairs) + [PopHash], st, children)
            == Some(Above(st, [item], context))
    decreases pairs, 1
  {
    hide PairsOps, AssignOps, PairVals, Assigned, Exec, Exec1, Vals;
    var inner := st.(hashes := if st.hash.Some? then st.hashes + [st.hash.value] else st.hashes, hash := Some(map[]));
    var pairOps, assignOps := PairsOps(o, scopes, pairs), AssignOps(pairs);
    OpenHash(st, children);
    Then([PushHash], pairOps, st, inner, children);
    var items;
    items, context := PairsRun(o, scopes, pairs, inner, children);
    Then([PushHash] + pairOps, assignOps, st, Above(inner, items, context), children);
    AssignRuns(pairs, items, map[], inner.(lastContext := context), children);
    var values := Assigned(map[], pairs, Vals(items));
    var filled := inner.(lastContext := context, hash := Some(values));
    Then([PushHash] + pairOps + assignOps, [PopHash], st, filled, children);
    CloseHash(st, context, values, children);
    item := Item(VHash(values), false);
  }

  lemma {:induction false} OpenHash(st: State, children: nat)
    ensures Exec([PushHash], st, children)
            == Some(st.(hashes := if st.hash.Some? then st.hashes + [st.hash.value] else st.hashes,
                        hash := Some(map[])))
  {
    ExecOne(PushHash, st, children);
  }

  lemma {:induction false} CloseHash(st: State, context: nat, values: map<string, Val>, children: nat)
    requires HashSaved(st)
    ensures var filled := st.(hashes := if st.hash.Some? then st.hashes + [st.hash.value] else st.hashes,
                              hash := Some(values), lastContext := context);
            Exec([PopHash], filled, children) == Some(Above(st, [Item(VHash(values), false)], context))
  {
    var filled := st.(hashes := if st.hash.Some? then st.hashes + [st.hash.value] else st.hashes,
                      hash := Some(values), lastContext := context);
    ExecOne(PopHash, filled, children);
    if st.hash.Some? {
      assert filled.hashes[..|st.hashes|] == st.hashes;
    }
  }

  predicate InRange(guid: Option<nat>, children: nat) {
    guid.Some? ==> guid.value < children
  }

  function GuidVal(guid: Option<nat>): Val {
    if guid.Some? then VProgram(guid.value) else VNull
  }

  lemma {:induction false} ProgramsRun(program: Option<nat>, inverse: Option<nat>, st: State, children: nat)
    requires InRange(program, children) && InRange(inverse, children)
    ensures Exec([PushProgram(program), PushProgram(inverse)], st, children)
            == Some(st.(inlineStack := st.inlineStack + [Item(GuidVal(program), true), Item(GuidVal(inverse), true)]))
  {
    var first := PushLit(st, GuidVal(program));
    ExecOne(PushProgram(program), st, children);
    Then([PushProgram(program)], [PushProgram(inverse)], st, first, children);
    ExecOne(PushProgram(inverse), first, children);
    assert [PushProgram(program)] + [PushProgram(inverse)] == [PushProgram(program), PushProgram(inverse)];
    assert first.inlineStack + [Item(GuidVal(inverse), true)]
        == st.inlineStack + [Item(GuidVal(program), true), Item(GuidVal(inverse), true)];
  }

  /** Parameters, programs and hash, as helpers, decorators and partials all lay them out. */
  lemma {:induction false} ArgumentsRun(o: Options, scopes: Scopes, call: Call, omitEmpty: bool,
                                        program: Option<nat>, inverse: Option<nat>, st: State, children: nat)
    returns (items: seq<Item>, item: Item, context: nat)
    requires HashSaved(st) && InRange(program, children) && InRange(inverse, children)
    ensures Vals(items) == ParamVals(o, scopes, call.params)
    ensures item.val == HashVal(o, scopes, call.hash, omitEmpty)
    ensures Exec(ParamsOps(o, scopes, call.params) + [PushProgram(program), PushProgram(inverse)]
                 + HashOps(o, scopes, call.hash, omitEmpty), st, children)
            == Some(st.(inlineStack := st.inlineStack + items
                        + [Item(GuidVal(program), true), Item(GuidVal(inverse), true), item],
                        lastContext := context))
    decreases call, 0
  {
    hide ParamsOps, HashOps, ParamVals, HashVal, Exec, Exec1;
    var c;
    items, c := ParamsRun(o, scopes, call.params, st, children);
    var st1 := Above(st, items, c);
    var programs := [PushProgram(program), PushProgram(inverse)];
    Then(ParamsOps(o, scopes, call.params), programs, st, st1, children);
    ProgramsRun(program, inverse, st1, children);
    var two := [Item(GuidVal(program), true), Item(GuidVal(inverse), true)];
    var st2 := st1.(inlineStack := st1.inlineStack + two);
    Then(ParamsOps(o, scopes, call.params) + programs, HashOps(o, scopes, call.hash, omitEmpty), st, st2, children);
    item, context := HashRuns(o, scopes, call.hash, omitEmpty, st2, children);
    assert two + [item] == [two[0], two[1], item];
    assert st2.inlineStack + [item] == st.inlineStack + items + (two + [item]);
  }

  lemma {:induction false} HelperRuns(o: Options, scopes: Scopes, call: Call, program: Option<nat>,
                                      inverse: Option<nat>, st: State, children: nat)
    returns (context: nat)
    requires HashSaved(st) && InRange(program, children) && InRange(inverse, children)
    ensures Exec(HelperOps(o, scopes, call, program, inverse), st, children)
            == Some(Above(st, [Item(HelperVal(o, scopes, call, GuidVal(program), GuidVal(inverse)), false)], context))
    decreases call, 1
  {
    hide ParamsOps, HashOps, ParamVals, HashVal, Exec, Exec1, PathOps, PathVal;
    var args := ParamsOps(o, scopes, call.params) + [PushProgram(program), PushProgram(inverse)]
                + HashOps(o, scopes, call.hash, false);
    var path := HeadOf(call);
    var items, hash, c := ArgumentsRun(o, scopes, call, false, program, inverse, st, children);
    var p, i := Item(GuidVal(program), true), Item(GuidVal(inverse), true);
    var base := st.(lastContext := c);
    var ready := base.(inlineStack := base.inlineStack + items + [p, i, hash]);
    Then(args, InvokeOps(o, scopes, call), st, ready, children);
    if Known(o, path) {
      context := c;
      InvokeKnown(base, items, p, i, hash, path.parts[0], children);
    } else {
      var literal := PathRuns(scopes, path, true, ready, children);
      var nonHelper := Item(PathVal(scopes, path, true), literal);
      var named := Above(ready, [nonHelper], path.depth);
      Then(PathOps(scopes, path, true), [InvokeHelper(|call.params|, path.original, SimpleId(path))], ready, named,
           children);
      context := path.depth;
      InvokeNamed(base.(lastContext := context), items, p, i, hash, nonHelper, path.original, SimpleId(path), children);
    }
  }

  lemma {:induction false} InvokeKnown(st: State, items: seq<Item>, p: Item, i: Item, hash: Item, name: string,
                                       children: nat)
    ensures Exec([InvokeKnownHelper(|items|, name)], st.(inlineStack := st.inlineStack + items + [p, i, hash]),
                 children)
            == Some(Push(st, VKnownHelper(name, Vals(items), MakeOptions(name, hash.val, p.val, i.val))))
  {
    hide SetupParams;
    ExecOne(InvokeKnownHelper(|items|, name), st.(inlineStack := st.inlineStack + items + [p, i, hash]), children);
    SetupItems(st, items, p, i, hash, name);
  }

  lemma {:induction false} InvokeNamed(st: State, items: seq<Item>, p: Item, i: Item, hash: Item, nonHelper: Item,
                                       name: string, simpleId: bool, children: nat)
    ensures Exec([InvokeHelper(|items|, name, simpleId)],
                 st.(inlineStack := st.inlineStack + items + [p, i, hash] + [nonHelper]), children)
            == Some(Push(st, VHelper(name, simpleId, nonHelper.val, Vals(items),
                                     MakeOptions(name, hash.val, p.val, i.val))))
  {
    hide SetupParams, Pop;
    var ready := st.(inlineStack := st.inlineStack + items + [p, i, hash]);
    ExecOne(InvokeHelper(|items|, name, simpleId), ready.(inlineStack := ready.inlineStack + [nonHelper]), children);
    PopTop(ready, nonHelper);
    SetupItems(st, items, p, i, hash, name);
  }
}
