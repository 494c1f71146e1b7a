/** The meaning of whole templates, and when the compiled template has it. */
module HandlebarsPrograms {
  import opened Wrappers
  import opened HandlebarsCompiler
  import opened HandlebarsMachine
  import opened HandlebarsMeaning

  /** What a program writes, the decorators it applies, and the programs it names by number. */
  datatype Meaning = Meaning(lines: seq<Line>, decorators: seq<Val>, nested: seq<Meaning>)

  /** Whose `options` an ambiguous block passes on: its own, as intended, or what the variable
      `options` of the generated function holds at that point. */
  datatype Register = Intended | Stored(options: Val)

  // ---------------------------------------------------------------------------
  // The meaning of statements.

  function MustacheVal(o: Options, scopes: Scopes, call: Call): Val {
    var path := HeadOf(call);
    match ClassifySexpr(o, scopes, path, Definite(call))
    case Simple => VLambda(PathVal(scopes, path, false))
    case Helper => HelperVal(o, scopes, call, VNull, VNull)
    case Ambiguous => AmbiguousVal(scopes, path, VNull, VNull)
  }

  function FirstPart(path: PathExpr): string {
    if path.parts == [] then "" else path.parts[0]
  }

  function AmbiguousOptions(path: PathExpr, program: Val, inverse: Val): Val {
    MakeOptions(FirstPart(path), VHash(map[]), program, inverse)
  }

  function AmbiguousVal(scopes: Scopes, path: PathExpr, program: Val, inverse: Val): Val {
    VAmbiguous(FirstPart(path), PathVal(scopes, path, false), AmbiguousOptions(path, program, inverse))
  }

  function BlockLines(o: Options, scopes: Scopes, call: Call, program: Val, inverse: Val, r: Register): seq<Line> {
    var path := HeadOf(call);
    match ClassifySexpr(o, scopes, path, Definite(call))
    case Helper => [LAppend(HelperVal(o, scopes, call, program, inverse))]
    case Simple =>
      [LAppend(VBlockHelperMissing(VLambda(PathVal(scopes, path, false)),
                                   MakeOptions(path.original, VHash(map[]), program, inverse)))]
    case Ambiguous =>
      var used := if r.Stored? && program == VNull && inverse == VNull then r.options
                  else AmbiguousOptions(path, program, inverse);
      [LAssign(1, AmbiguousVal(scopes, path, program, inverse)),
       LUnlessHelper(FirstPart(path), VStack(1), VBlockHelperMissing(VStack(1), used)),
       LAppend(VStack(1))]
  }

  /** The context of a partial: its parameter, or the current context, or explicitly none. */
  function ContextVal(o: Options, scopes: Scopes, params: seq<Expr>): Val {
    if params != [] then ExprVal(o, scopes, params[0])
    else if o.explicitPartialContext then VLiteral("undefined")
    else VContext(0)
  }

  function NameVal(o: Options, scopes: Scopes, name: PartialName): Val {
    match name
    case StaticName(original) => VString(original)
    case DynamicName(call) => ExprVal(o, scopes, SubExpression(call))
  }

  /** A dynamic name is compiled after the explicit missing context, where the context belongs. */
  predicate Swapped(o: Options, name: PartialName, params: seq<Expr>) {
    name.DynamicName? && params == [] && o.explicitPartialContext
  }

  function PartialVal(o: Options, scopes: Scopes, name: PartialName, params: seq<Expr>, hash: Hash, program: Val,
                      indent: string, r: Register): Val {
    var options := MakeOptions(PartialTitle(name), HashVal(o, scopes, hash, true), program, VNull);
    var target, context := NameVal(o, scopes, name), ContextVal(o, scopes, params);
    if r.Stored? && Swapped(o, name, params) then VPartial(context, target, options, indent)
    else VPartial(target, context, options, indent)
  }

  function ProgramCount(program: Option<Program>): nat {
    if program.Some? then 1 else 0
  }

  function KidCount(s: Statement): nat {
    match s
    case Block(_, program, inverse) => ProgramCount(program) + ProgramCount(inverse)
    case DecoratorBlock(_, program) => ProgramCount(program)
    case Partial(_, _, _, program, _) => ProgramCount(program)
    case _ => 0
  }

  function StatementLines(o: Options, scopes: Scopes, s: Statement, next: nat, r: Register): seq<Line> {
    match s
    case Mustache(call, escaped) =>
      var val := MustacheVal(o, scopes, call);
      [if escaped && !o.noEscape then LAppendEscaped(val) else LAppend(val)]
    case Block(call, program, inverse) =>
      BlockLines(o, scopes, call, GuidVal(Guid(program, next)), GuidVal(Guid(inverse, next + ProgramCount(program))), r)
    case DecoratorBlock(_, _) => []
    case Partial(name, params, hash, program, indent) =>
      [LAppend(PartialVal(o, scopes, name, params, hash, GuidVal(Guid(program, next)), indent, r))]
    case Content(value) => [LContent(value)]
    case Comment => []
  }

  predicate AmbiguousBlock(o: Options, scopes: Scopes, s: Statement) {
    s.Block? && ClassifySexpr(o, scopes, HeadOf(s.call), Definite(s.call)) == Ambiguous
  }

  function NextRegister(o: Options, scopes: Scopes, s: Statement, next: nat, r: Register): Register {
    if r.Stored? && AmbiguousBlock(o, scopes, s) && (s.program.Some? || s.inverse.Some?) then
      Stored(AmbiguousOptions(HeadOf(s.call), GuidVal(Guid(s.program, next)),
                              GuidVal(Guid(s.inverse, next + ProgramCount(s.program)))))
    else r
  }

  function BodyLines(o: Options, scopes: Scopes, body: seq<Statement>, next: nat, r: Register): seq<Line> {
    if body == [] then []
    else StatementLines(o, scopes, body[0], next, r)
         + BodyLines(o, scopes, body[1..], next + KidCount(body[0]), NextRegister(o, scopes, body[0], next, r))
  }

  function StatementDecorators(o: Options, scopes: Scopes, s: Statement, next: nat): seq<Val> {
    if !s.DecoratorBlock? then []
    else
      var name := HeadOf(s.call).original;
      [VKnownHelper(name, ParamVals(o, scopes, s.call.params),
                    MakeOptions(name, HashVal(o, scopes, s.call.hash, false), GuidVal(Guid(s.program, next)), VNull))]
  }

  function BodyDecorators(o: Options, scopes: Scopes, body: seq<Statement>, next: nat): seq<Val> {
    if body == [] then []
    else StatementDecorators(o, scopes, body[0], next) + BodyDecorators(o, scopes, body[1..], next + KidCount(body[0]))
  }

  function ProgramMeaning(o: Options, scopes: Scopes, program: Program, r: Register): Meaning
    decreases program, 1
  {
    var inner := [program.blockParams] + scopes;
    Meaning(Explode(BodyLines(o, inner, program.body, 0, r)), BodyDecorators(o, inner, program.body, 0),
            BodyNested(o, inner, program.body, r))
  }

  function ChildMeaning(o: Options, scopes: Scopes, program: Option<Program>, r: Register): seq<Meaning>
    decreases program, 2
  {
    if program.Some? then [ProgramMeaning(o, scopes, program.value, r)] else []
  }

  function StatementNested(o: Options, scopes: Scopes, s: Statement, r: Register): seq<Meaning>
    decreases s, 1
  {
    match s
    case Block(_, program, inverse) => ChildMeaning(o, scopes, program, r) + ChildMeaning(o, scopes, inverse, r)
    case DecoratorBlock(_, program) => ChildMeaning(o, scopes, program, r)
    case Partial(_, _, _, program, _) => ChildMeaning(o, scopes, program, r)
    case Mustache(_, _) => []
    case Content(_) => []
    case Comment => []
  }

  function BodyNested(o: Options, scopes: Scopes, body: seq<Statement>, r: Register): seq<Meaning>
    decreases body, 0
  {
    if body == [] then [] else StatementNested(o, scopes, body[0], r) + BodyNested(o, scopes, body[1..], r)
  }

  /** Adjacent content is merged by the machine, so content is compared letter by letter. */
  function Explode(lines: seq<Line>): seq<Line> {
    if lines == [] then []
    else (if lines[0].LContent? then Letters(lines[0].text) else [lines[0]]) + Explode(lines[1..])
  }

  function Letters(text: string): (lines: seq<Line>)
    ensures |lines| == |text|
    ensures forall i :: 0 <= i < |text| ==> lines[i] == LContent([text[i]])
  {
    seq(|text|, i requires 0 <= i < |text| => LContent([text[i]]))
  }

  lemma {:induction false} ExplodeJoin(a: seq<Line>, b: seq<Line>)
    ensures Explode(a + b) == Explode(a) + Explode(b)
  {
    if a == [] {
      assert a + b == b;
    } else {
      assert (a + b)[1..] == a[1..] + b;
      ExplodeJoin(a[1..], b);
    }
  }

  lemma {:induction false} ExplodeOne(line: Line)
    ensures Explode([line]) == if line.LContent? then Letters(line.text) else [line]
  {
    assert [line][1..] == [];
  }

  // ---------------------------------------------------------------------------
  // The machine on statements.

  function Output(st: State): seq<Line> {
    Explode(st.source + [LContent(st.pendingContent)])
  }

  /** The machine between two statements: both stacks empty, no variable in use, no hash open. */
  predicate Ready(st: State) {
    st.inlineStack == [] && st.compileStack == [] && st.stackSlot == 0 && st.hash == None && st.hashes == []
  }

  lemma {:induction false} OutputSplit(st: State)
    ensures Output(st) == Explode(st.source) + Letters(st.pendingContent)
  {
    ExplodeJoin(st.source, [LContent(st.pendingContent)]);
    ExplodeOne(LContent(st.pendingContent));
  }

  lemma {:induction false} PushSourceOutput(st: State, lines: seq<Line>)
    ensures Output(PushSource(st, lines)) == Output(st) + Explode(lines)
  {
    FlushPending(st);
    OutputSplit(PushSource(st, lines));
    assert Letters("") == [];
    hide Explode, Output;
    var before := PushSource(st, []).source;
    assert PushSource(st, lines).source == before + lines;
    ExplodeJoin(before, lines);
  }

  lemma {:induction false} FlushPending(st: State)
    ensures Explode(PushSource(st, []).source) == Output(st)
  {
    OutputSplit(st);
    hide Output;
    var pending := LContent(st.pendingContent);
    if st.pendingContent == "" {
      assert Letters("") == [];
      assert PushSource(st, []).source == st.source;
    } else {
      ExplodeJoin(st.source, [pending]);
      ExplodeOne(pending);
      assert PushSource(st, []).source == st.source + [pending];
    }
  }

  lemma {:induction false} AppendRuns(escaped: bool, item: Item, st: State, children: nat)
    ensures Exec([if escaped then AppendEscaped else Append], st.(inlineStack := st.inlineStack + [item]), children)
            == Some(PushSource(st, [if escaped then LAppendEscaped(item.val) else LAppend(item.val)]))
  {
    ExecOne(if escaped then AppendEscaped else Append, st.(inlineStack := st.inlineStack + [item]), children);
    PopTop(st, item);
  }

  /** Opcodes that push one value, then an append. */
  lemma {:induction false} AppendsValue(ops: seq<Opcode>, escaped: bool, item: Item, context: nat, st: State,
                                        mid: State, children: nat)
    requires Exec(ops, st, children) == Some(mid)
    requires mid.inlineStack == st.inlineStack + [item]
    ensures Exec(ops + [if escaped then AppendEscaped else Append], st, children)
            == Some(PushSource(mid.(inlineStack := st.inlineStack),
                               [if escaped then LAppendEscaped(item.val) else LAppend(item.val)]))
  {
    hide Exec, Exec1;
    Then(ops, [if escaped then AppendEscaped else Append], st, mid, children);
    AppendRuns(escaped, item, mid.(inlineStack := st.inlineStack), children);
  }

  lemma {:induction false} AmbiguousRuns(scopes: Scopes, path: PathExpr, program: Option<nat>, inverse: Option<nat>,
                                         st: State, children: nat)
    requires InRange(program, children) && InRange(inverse, children)
    ensures var item := Item(AmbiguousVal(scopes, path, GuidVal(program), GuidVal(inverse)), false);
            var called := Above(st, [item], path.depth).(lastHelper := FirstPart(path));
            Exec(AmbiguousOps(scopes, path, program, inverse), st, children)
            == Some(if program.Some? || inverse.Some?
                    then called.(options := AmbiguousOptions(path, GuidVal(program), GuidVal(inverse))) else called)
  {
    hide PathOps, PathVal, Exec, Exec1, SetupParams;
    var isBlock := program.Some? || inverse.Some?;
    var st1 := st.(lastContext := path.depth);
    var programs := [PushProgram(program), PushProgram(inverse)];
    GetContextRuns(path.depth, st, children);
    Then([GetContext(path.depth)], programs, st, st1, children);
    ProgramsRun(program, inverse, st1, children);
    var p, i := Item(GuidVal(program), true), Item(GuidVal(inverse), true);
    var st2 := st1.(inlineStack := st1.inlineStack + [p, i]);
    Then([GetContext(path.depth)] + programs, PathOps(scopes, path, false), st, st2, children);
    var literal := PathRuns(scopes, path, false, st2, children);
    var nonHelper := Item(PathVal(scopes, path, false), literal);
    var st3 := Above(st2, [nonHelper], path.depth);
    var last := InvokeAmbiguous(FirstPart(path), isBlock);
    assert [GetContext(path.depth)] + programs == [GetContext(path.depth), PushProgram(program), PushProgram(inverse)];
    Then([GetContext(path.depth)] + programs + PathOps(scopes, path, false), [last], st, st3, children);
    InvokeAmbiguousRuns(FirstPart(path), isBlock, p, i, nonHelper, st1, children);
  }

  lemma {:induction false} GetContextRuns(depth: nat, st: State, children: nat)
    ensures Exec([GetContext(depth)], st, children) == Some(st.(lastContext := depth))
  {
    ExecOne(GetContext(depth), st, children);
  }

  lemma {:induction false} InvokeAmbiguousRuns(name: string, isBlock: bool, p: Item, i: Item, nonHelper: Item,
                                               st: State, children: nat)
    ensures var options := MakeOptions(name, VHash(map[]), p.val, i.val);
            var called := Push(st, VAmbiguous(name, nonHelper.val, options)).(lastHelper := name);
            Exec([InvokeAmbiguous(name, isBlock)], st.(inlineStack := st.inlineStack + [p, i] + [nonHelper]), children)
            == Some(if isBlock then called.(options := options) else called)
  {
    hide SetupParams, Pop;
    var ready := st.(inlineStack := st.inlineStack + [p, i]);
    var hash := Item(VHash(map[]), true);
    ExecOne(InvokeAmbiguous(name, isBlock), ready.(inlineStack := ready.inlineStack + [nonHelper]), children);
    PopTop(ready, nonHelper);
    assert Vals([]) == [];
    assert ready.inlineStack + [hash] == st.inlineStack + [] + [p, i, hash];
    SetupItems(st, [], p, i, hash, name);
  }

  lemma {:induction false} MustacheRuns(o: Options, scopes: Scopes, call: Call, st: State, children: nat)
    returns (mid: State)
    requires HashSaved(st)
    ensures Exec(MustacheOps(o, scopes, call), st, children) == Some(mid)
    ensures mid == Above(st, [Item(MustacheVal(o, scopes, call), false)],
                         mid.lastContext).(lastHelper := mid.lastHelper)
  {
    hide SimpleOps, HelperOps, AmbiguousOps, ClassifySexpr, PathVal, HelperVal, AmbiguousOptions, Exec;
    var path := HeadOf(call);
    match ClassifySexpr(o, scopes, path, Definite(call))
    case Simple =>
      LambdaRuns(scopes, path, st, children);
      mid := Above(st, [Item(VLambda(PathVal(scopes, path, false)), false)], path.depth);
    case Helper =>
      var context := HelperRuns(o, scopes, call, None, None, st, children);
      mid := Above(st, [Item(HelperVal(o, scopes, call, VNull, VNull), false)], context);
    case Ambiguous =>
      AmbiguousRuns(scopes, path, None, None, st, children);
      mid := Above(st, [Item(AmbiguousVal(scopes, path, VNull, VNull), false)],
                   path.depth).(lastHelper := FirstPart(path));
  }

  /** What running a statement from `st` must leave behind. */
  predicate Wrote(st: State, after: State, lines: seq<Line>, decorators: seq<Val>, r: Register) {
    && Ready(after)
    && Output(after) == Output(st) + Explode(lines)
    && after.decorators == st.decorators + decorators
    && Stored(after.options) == r
  }

  lemma {:induction false} AppendWrites(st: State, mid: State, escaped: bool, val: Val, r: Register)
    requires Ready(st)
    requires mid == st.(lastContext := mid.lastContext, lastHelper := mid.lastHelper, options := mid.options)
    requires Stored(mid.options) == r
    ensures var line := if escaped then LAppendEscaped(val) else LAppend(val);
            Wrote(st, PushSource(mid, [line]), [line], [], r)
  {
    hide Explode;
    PushSourceOutput(mid, [if escaped then LAppendEscaped(val) else LAppend(val)]);
    assert st.decorators + [] == st.decorators;
  }

  /** Opcodes that push one value, then an append: one line. */
  lemma {:induction false} ValueWritten(ops: seq<Opcode>, escaped: bool, val: Val, st: State, mid: State, children: nat)
    returns (after: State)
    requires Ready(st) && Exec(ops, st, children) == Some(mid)
    requires mid == Above(st, [Item(val, false)], mid.lastContext).(lastHelper := mid.lastHelper)
    ensures Exec(ops + [if escaped then AppendEscaped else Append], st, children) == Some(after)
    ensures Wrote(st, after, [if escaped then LAppendEscaped(val) else LAppend(val)], [], Stored(st.options))
  {
    hide Exec, Wrote;
    var line := if escaped then LAppendEscaped(val) else LAppend(val);
    var base := mid.(inlineStack := st.inlineStack);
    AppendsValue(ops, escaped, Item(val, false), mid.lastContext, st, mid, children);
    AppendWrites(st, base, escaped, val, Stored(st.options));
    after := PushSource(base, [line]);
  }

  lemma {:induction false} BlockValueRuns(name: string, value: Item, p: Item, i: Item, hash: Item, st: State,
                                          children: nat)
    ensures Exec([BlockValue(name)], st.(inlineStack := st.inlineStack + [value] + [p, i, hash]), children)
            == Some(Push(st, VBlockHelperMissing(value.val, MakeOptions(name, hash.val, p.val, i.val))))
  {
    hide SetupParams, Pop;
    var ready := st.(inlineStack := st.inlineStack + [value]);
    ExecOne(BlockValue(name), ready.(inlineStack := ready.inlineStack + [p, i, hash]), children);
    assert ready.inlineStack + [] + [p, i, hash] == ready.inlineStack + [p, i, hash];
    SetupItems(ready, [], p, i, hash, name);
    PopTop(st, value);
  }

  /** Program, inverse and an empty hash. */
  lemma {:induction false} BlockArgumentsRun(program: Option<nat>, inverse: Option<nat>, st: State, children: nat)
    requires InRange(program, children) && InRange(inverse, children)
    ensures Exec([PushProgram(program), PushProgram(inverse), EmptyHash(false)], st, children)
            == Some(st.(inlineStack := st.inlineStack
                        + [Item(GuidVal(program), true), Item(GuidVal(inverse), true), Item(VHash(map[]), true)]))
  {
    hide Exec;
    var p, i := Item(GuidVal(program), true), Item(GuidVal(inverse), true);
    var mid := st.(inlineStack := st.inlineStack + [p, i]);
    ProgramsRun(program, inverse, st, children);
    Then([PushProgram(program), PushProgram(inverse)], [EmptyHash(false)], st, mid, children);
    ExecOne(EmptyHash(false), mid, children);
    assert [PushProgram(program), PushProgram(inverse)] + [EmptyHash(false)]
           == [PushProgram(program), PushProgram(inverse), EmptyHash(false)];
    assert mid.inlineStack + [Item(VHash(map[]), true)] == st.inlineStack + [p, i, Item(VHash(map[]), true)];
  }

  lemma {:induction false} SimpleBlockRuns(scopes: Scopes, path: PathExpr, program: Option<nat>, inverse: Option<nat>,
                                           st: State, children: nat)
    requires InRange(program, children) && InRange(inverse, children)
    ensures Exec(SimpleOps(scopes, path) + [PushProgram(program), PushProgram(inverse), EmptyHash(false)]
                 + [BlockValue(path.original)], st, children)
            == Some(Above(st, [Item(VBlockHelperMissing(VLambda(PathVal(scopes, path, false)),
                                                        MakeOptions(path.original, VHash(map[]), GuidVal(program),
                                                                    GuidVal(inverse))),
                                    false)], path.depth))
  {
    hide SimpleOps, PathVal, Exec, MakeOptions;
    var value := Item(VLambda(PathVal(scopes, path, false)), false);
    var st1 := Above(st, [value], path.depth);
    var rest := [PushProgram(program), PushProgram(inverse), EmptyHash(false)];
    LambdaRuns(scopes, path, st, children);
    Then(SimpleOps(scopes, path), rest, st, st1, children);
    BlockArgumentsRun(program, inverse, st1, children);
    var p, i, hash := Item(GuidVal(program), true), Item(GuidVal(inverse), true), Item(VHash(map[]), true);
    Then(SimpleOps(scopes, path) + rest, [BlockValue(path.original)], st,
         st1.(inlineStack := st1.inlineStack + [p, i, hash]), children);
    BlockValueRuns(path.original, value, p, i, hash, st.(lastContext := path.depth), children);
  }

  /** The value of the ambiguous call goes to a variable, which the missing-helper call may overwrite. */
  lemma {:induction false} AmbiguousValueRuns(value: Item, p: Item, i: Item, hash: Item, st: State, children: nat)
    requires Ready(st) && !value.literal
    ensures var call := LUnlessHelper(st.lastHelper, VStack(1), VBlockHelperMissing(VStack(1), st.options));
            Exec([AmbiguousBlockValue], st.(inlineStack := [value, p, i, hash]), children)
            == Some(PushSource(PushSource(st, [LAssign(1, value.val)]), [call]).(
                      stackSlot := 1, compileStack := [Item(VStack(1), false)]))
  {
    hide SetupParams, FlushInline, Pop;
    var ready := st.(inlineStack := [value]);
    assert [value] + [] + [p, i, hash] == [value, p, i, hash];
    ExecOne(AmbiguousBlockValue, st.(inlineStack := [value, p, i, hash]), children);
    SetupItems(ready, [], p, i, hash, "");
    FlushOne(value, st);
  }

  /** An item that was moved to the compiled stack is popped from there, as itself or as its variable, and its slot is
      free again. */
  lemma {:induction false} FlushedIsPopped(item: Item, st: State)
    requires st.inlineStack == []
    ensures var popped := Pop(FlushItem(st, item));
            && popped.Some?
            && popped.value.0 == (if item.literal then item.val else VStack(st.stackSlot + 1))
            && popped.value.1.compileStack == st.compileStack && popped.value.1.stackSlot == st.stackSlot
            && (!item.literal ==> FlushItem(st, item).source[|FlushItem(st, item).source| - 1..]
                                  == [LAssign(st.stackSlot + 1, item.val)])
  {
    var flushed := FlushItem(st, item);
    assert flushed.compileStack[..|st.compileStack|] == st.compileStack;
    if !item.literal {
      assert |flushed.source| > 0;
    }
  }

  lemma {:induction false} FlushOne(value: Item, st: State)
    requires Ready(st) && !value.literal
    ensures FlushInline(st.(inlineStack := [value]))
            == PushSource(st, [LAssign(1, value.val)]).(stackSlot := 1, compileStack := [Item(VStack(1), false)])
  {
    assert [value][1..] == [];
    var stored := PushSource(st, [LAssign(1, value.val)]).(stackSlot := 1, compileStack := [Item(VStack(1), false)]);
    assert [] + [Item(VStack(1), false)] == [Item(VStack(1), false)];
    assert FlushFrom(stored, []) == stored;
  }

  lemma {:induction false} AppendVariable(st: State, children: nat)
    requires st.inlineStack == [] && st.compileStack == [Item(VStack(1), false)] && st.stackSlot == 1
    ensures Exec([Append], st, children)
            == Some(PushSource(st.(compileStack := [], stackSlot := 0), [LAppend(VStack(1))]))
  {
    ExecOne(Append, st, children);
    assert st.compileStack[..0] == [];
  }

  lemma {:induction false} AmbiguousBlockRuns(scopes: Scopes, path: PathExpr, program: Option<nat>,
                                              inverse: Option<nat>, st: State, children: nat)
    returns (after: State)
    requires Ready(st) && InRange(program, children) && InRange(inverse, children)
    ensures Exec(AmbiguousOps(scopes, path, program, inverse)
                 + [PushProgram(program), PushProgram(inverse), EmptyHash(false)]
                 + [AmbiguousBlockValue] + [Append], st, children) == Some(after)
    ensures var used := if program.Some? || inverse.Some?
                        then AmbiguousOptions(path, GuidVal(program), GuidVal(inverse)) else st.options;
            Wrote(st, after,
                  [LAssign(1, AmbiguousVal(scopes, path, GuidVal(program), GuidVal(inverse))),
                   LUnlessHelper(FirstPart(path), VStack(1), VBlockHelperMissing(VStack(1), used)),
                   LAppend(VStack(1))],
                  [], Stored(used))
  {
    hide AmbiguousOps, PathVal, Exec, AmbiguousVal, AmbiguousOptions, Wrote, FirstPart;
    var used := if program.Some? || inverse.Some? then AmbiguousOptions(path, GuidVal(program), GuidVal(inverse))
                else st.options;
    var value := Item(AmbiguousVal(scopes, path, GuidVal(program), GuidVal(inverse)), false);
    var base := st.(lastContext := path.depth, lastHelper := FirstPart(path), options := used);
    var st1 := base.(inlineStack := st.inlineStack + [value]);
    AmbiguousRuns(scopes, path, program, inverse, st, children);
    var rest := [PushProgram(program), PushProgram(inverse), EmptyHash(false)];
    var ops := AmbiguousOps(scopes, path, program, inverse);
    Then(ops, rest, st, st1, children);
    BlockArgumentsRun(program, inverse, st1, children);
    var p, i, hash := Item(GuidVal(program), true), Item(GuidVal(inverse), true), Item(VHash(map[]), true);
    var st2 := st1.(inlineStack := [value, p, i, hash]);
    assert st1.inlineStack + [p, i, hash] == [value, p, i, hash];
    Then(ops + rest, [AmbiguousBlockValue], st, st2, children);
    AmbiguousValueRuns(value, p, i, hash, base, children);
    var call := LUnlessHelper(FirstPart(path), VStack(1), VBlockHelperMissing(VStack(1), used));
    var written := PushSource(PushSource(base, [LAssign(1, value.val)]), [call]);
    var st3 := written.(stackSlot := 1, compileStack := [Item(VStack(1), false)]);
    Then(ops + rest + [AmbiguousBlockValue], [Append], st, st3, children);
    AppendVariable(st3, children);
    after := PushSource(written, [LAppend(VStack(1))]);
    ThreeLines(st, base, LAssign(1, value.val), call, LAppend(VStack(1)));
  }

  lemma {:induction false} ThreeLines(st: State, base: State, a: Line, b: Line, c: Line)
    requires Ready(st) && base == st.(lastContext := base.lastContext, lastHelper := base.lastHelper,
                                      options := base.options)
    ensures Wrote(st, PushSource(PushSource(PushSource(base, [a]), [b]), [c]), [a, b, c], [], Stored(base.options))
  {
    hide Explode;
    PushSourceOutput(base, [a]);
    PushSourceOutput(PushSource(base, [a]), [b]);
    PushSourceOutput(PushSource(PushSource(base, [a]), [b]), [c]);
    assert [a, b, c] == [a] + [b] + [c];
    ExplodeJoin([a] + [b], [c]);
    ExplodeJoin([a], [b]);
    assert st.decorators + [] == st.decorators;
  }

  lemma {:induction false} BlockRuns(o: Options, scopes: Scopes, call: Call, program: Option<nat>,
                                     inverse: Option<nat>, st: State, children: nat)
    returns (after: State)
    requires Ready(st) && InRange(program, children) && InRange(inverse, children)
    ensures Exec(BlockOps(o, scopes, call, program, inverse) + [Append], st, children) == Some(after)
    ensures Wrote(st, after, BlockLines(o, scopes, call, GuidVal(program), GuidVal(inverse), Stored(st.options)), [],
                  if ClassifySexpr(o, scopes, HeadOf(call), Definite(call)) == Ambiguous
                  && (program.Some? || inverse.Some?)
                  then Stored(AmbiguousOptions(HeadOf(call), GuidVal(program), GuidVal(inverse)))
                  else Stored(st.options))
  {
    hide SimpleOps, HelperOps, AmbiguousOps, ClassifySexpr, PathVal, HelperVal, AmbiguousVal, AmbiguousOptions, Exec,
         Wrote;
    var path := HeadOf(call);
    var rest := [PushProgram(program), PushProgram(inverse), EmptyHash(false)];
    match ClassifySexpr(o, scopes, path, Definite(call))
    case Helper =>
      var val := HelperVal(o, scopes, call, GuidVal(program), GuidVal(inverse));
      var context := HelperRuns(o, scopes, call, program, inverse, st, children);
      after := ValueWritten(HelperOps(o, scopes, call, program, inverse), false, val, st,
                            Above(st, [Item(val, false)], context), children);
    case Simple =>
      var val := VBlockHelperMissing(VLambda(PathVal(scopes, path, false)),
                                     MakeOptions(path.original, VHash(map[]), GuidVal(program), GuidVal(inverse)));
      SimpleBlockRuns(scopes, path, program, inverse, st, children);
      after := ValueWritten(SimpleOps(scopes, path) + rest + [BlockValue(path.original)], false, val, st,
                            Above(st, [Item(val, false)], path.depth), children);
    case Ambiguous =>
      after := AmbiguousBlockRuns(scopes, path, program, inverse, st, children);
  }

  lemma {:induction false} DecoratorRuns(o: Options, scopes: Scopes, call: Call, program: Option<nat>, st: State,
                                         children: nat)
    returns (after: State)
    requires Ready(st) && InRange(program, children)
    ensures var name := HeadOf(call).original;
            && Exec(ParamsOps(o, scopes, call.params) + [PushProgram(program), PushProgram(None)]
                    + HashOps(o, scopes, call.hash, false) + [RegisterDecorator(|call.params|, name)], st, children)
                    == Some(after)
            && Wrote(st, after, [],
                     [VKnownHelper(name, ParamVals(o, scopes, call.params),
                                   MakeOptions(name, HashVal(o, scopes, call.hash, false), GuidVal(program), VNull))],
                     Stored(st.options))
  {
    hide ParamsOps, HashOps, ParamVals, HashVal, Exec, Exec1, HeadOf;
    var name := HeadOf(call).original;
    var args := ParamsOps(o, scopes, call.params) + [PushProgram(program), PushProgram(None)]
                + HashOps(o, scopes, call.hash, false);
    var items, hash, c := ArgumentsRun(o, scopes, call, false, program, None, st, children);
    var p, i := Item(GuidVal(program), true), Item(VNull, true);
    var base := st.(lastContext := c);
    var ready := base.(inlineStack := base.inlineStack + items + [p, i, hash]);
    Then(args, [RegisterDecorator(|call.params|, name)], st, ready, children);
    RegisterRuns(name, items, p, i, hash, base, children);
    after := base.(decorators := base.decorators
                   + [VKnownHelper(name, Vals(items), MakeOptions(name, hash.val, p.val, i.val))]);
    assert Explode([]) == [];
    assert Output(st) + [] == Output(st);
  }

  lemma {:induction false} RegisterRuns(name: string, items: seq<Item>, p: Item, i: Item, hash: Item, st: State,
                                        children: nat)
    ensures Exec([RegisterDecorator(|items|, name)], st.(inlineStack := st.inlineStack + items + [p, i, hash]),
                 children)
            == Some(st.(decorators := st.decorators
                        + [VKnownHelper(name, Vals(items), MakeOptions(name, hash.val, p.val, i.val))]))
  {
    hide SetupParams;
    ExecOne(RegisterDecorator(|items|, name), st.(inlineStack := st.inlineStack + items + [p, i, hash]), children);
    SetupItems(st, items, p, i, hash, name);
  }

  lemma {:induction false} InvokePartialRuns(isDynamic: bool, name: string, indent: string, below: seq<Item>, top: Item,
                                             p: Item, i: Item, hash: Item, st: State, children: nat)
    requires |below| == if isDynamic then 1 else 0
    ensures Exec([InvokePartial(isDynamic, name, indent)],
                 st.(inlineStack := st.inlineStack + (below + [top]) + [p, i, hash]), children)
            == Some(Push(st, VPartial(if isDynamic then below[0].val else VString(name), top.val,
                                      MakeOptions(name, hash.val, p.val, i.val), indent)))
  {
    hide SetupParams, Pop;
    var st1 := st.(inlineStack := st.inlineStack + below);
    var ready := st.(inlineStack := st.inlineStack + (below + [top]) + [p, i, hash]);
    assert ready.inlineStack == st1.inlineStack + [top] + [p, i, hash];
    ExecOne(InvokePartial(isDynamic, name, indent), ready, children);
    SetupItems(st1, [top], p, i, hash, name);
    assert Vals([top])[0] == top.val;
    if isDynamic {
      assert below == [below[0]];
      PopTop(st, below[0]);
    } else {
      assert st.inlineStack + below == st.inlineStack;
    }
  }

  /** The explicit missing context, if any, then the dynamic name, if any. */
  lemma {:induction false} PartialHeadRuns(o: Options, scopes: Scopes, name: PartialName, params: seq<Expr>, st: State,
                                           children: nat)
    returns (items: seq<Item>, context: nat)
    requires HashSaved(st)
    ensures Exec(PartialContext(o, params) + NameOps(o, scopes, name), st, children) == Some(Above(st, items, context))
    ensures Vals(items) == HeadVals(o, scopes, name, params)
  {
    hide ExprOps, ExprVal, Exec;
    var first := if params == [] && o.explicitPartialContext then [Item(VLiteral("undefined"), true)] else [];
    var st1 := st.(inlineStack := st.inlineStack + first);
    assert Exec(PartialContext(o, params), st, children) == Some(st1) by {
      if first == [] {
        assert st.inlineStack + [] == st.inlineStack;
        ExecNone(st, children);
      } else {
        ExecOne(PushLiteral("undefined"), st, children);
      }
    }
    Then(PartialContext(o, params), NameOps(o, scopes, name), st, st1, children);
    match name
    case StaticName(_) =>
      ExecNone(st1, children);
      items, context := first, st.lastContext;
    case DynamicName(call) =>
      var item;
      item, context := ExprRuns(o, scopes, SubExpression(call), st1, children);
      items := first + [item];
      assert st1.inlineStack + [item] == st.inlineStack + items;
  }

  lemma {:induction false} PartialParamVals(o: Options, scopes: Scopes, params: seq<Expr>)
    requires |params| <= 1
    ensures ParamVals(o, scopes, PartialParams(o, params))
            == if params == [] && o.explicitPartialContext then [] else [ContextVal(o, scopes, params)]
  {
    if params == [] && !o.explicitPartialContext {
      assert [CURRENT_CONTEXT][1..] == [];
    } else if params != [] {
      assert params[1..] == [];
    }
  }

  lemma {:induction false} PartialRuns(o: Options, scopes: Scopes, name: PartialName, params: seq<Expr>, hash: Hash,
                                       program: Option<nat>, indent: string, st: State, children: nat)
    returns (after: State)
    requires Ready(st) && InRange(program, children) && |params| <= 1
    ensures Exec(PartialOps(o, scopes, name, params, hash, program)
                 + [InvokePartial(name.DynamicName?, PartialTitle(name), indent), Append], st, children) == Some(after)
    ensures Wrote(st, after, [LAppend(PartialVal(o, scopes, name, params, hash, GuidVal(program), indent,
                                                 Stored(st.options)))],
                  [], Stored(st.options))
  {
    hide ParamsOps, HashOps, ParamVals, HashVal, Exec, ExprVal, NameOps, PartialContext, PartialParams, Wrote;
    var head := PartialContext(o, params) + NameOps(o, scopes, name);
    var call := Call(HeadLiteral(""), PartialParams(o, params), hash);
    var args := ParamsOps(o, scopes, call.params) + [PushProgram(program), PushProgram(None)]
                + HashOps(o, scopes, hash, true);
    var title := PartialTitle(name);
    var invoke := [InvokePartial(name.DynamicName?, title, indent)];
    var below, c := PartialHeadRuns(o, scopes, name, params, st, children);
    var st1 := Above(st, below, c);
    Then(head, args, st, st1, children);
    var items, h, c2 := ArgumentsRun(o, scopes, call, true, program, None, st1, children);
    var all := below + items;
    var base := st.(lastContext := c2);
    var p, i := Item(GuidVal(program), true), Item(VNull, true);
    var ready := base.(inlineStack := base.inlineStack + all + [p, i, h]);
    assert st1.inlineStack + items + [p, i, h] == ready.inlineStack;
    Then(head + args, invoke, st, ready, children);
    PartialInvoked(o, scopes, name, params, hash, program, indent, below, items, h, base, children);
    var val := PartialVal(o, scopes, name, params, hash, GuidVal(program), indent, Stored(st.options));
    hide PartialVal;
    after := ValueWritten(head + args + invoke, false, val, st, Push(base, val), children);
    assert PartialOps(o, scopes, name, params, hash, program)
           + [InvokePartial(name.DynamicName?, title, indent), Append]
        == head + args + invoke + [Append];
  }

  /** invokePartial takes the top value for the context and the one below it for a dynamic name. */
  lemma {:induction false} PartialInvoked(o: Options, scopes: Scopes, name: PartialName, params: seq<Expr>, hash: Hash,
                                          program: Option<nat>, indent: string, below: seq<Item>, items: seq<Item>,
                                          h: Item,
                                          st: State, children: nat)
    requires |params| <= 1 && h.val == HashVal(o, scopes, hash, true)
    requires Vals(below) == HeadVals(o, scopes, name, params)
    requires Vals(items) == ParamVals(o, scopes, PartialParams(o, params))
    ensures Exec([InvokePartial(name.DynamicName?, PartialTitle(name), indent)],
                 st.(inlineStack := st.inlineStack + (below + items)
                     + [Item(GuidVal(program), true), Item(VNull, true), h]), children)
            == Some(Push(st, PartialVal(o, scopes, name, params, hash, GuidVal(program), indent, Stored(st.options))))
  {
    hide HashVal, Exec, Exec1, ExprVal, PartialParams, NameVal, ContextVal, ParamVals, MakeOptions, PartialVal,
         HeadVals;
    var all := below + items;
    var vals := HeadVals(o, scopes, name, params) + ParamVals(o, scopes, PartialParams(o, params));
    PartialChosen(o, scopes, name, params, hash, GuidVal(program), indent, Stored(st.options), vals);
    assert Vals(all) == vals;
    var last := |all| - 1;
    assert all == all[..last] + [all[last]];
    InvokePartialRuns(name.DynamicName?, PartialTitle(name), indent, all[..last], all[last],
                      Item(GuidVal(program), true), Item(VNull, true), h, st, children);
  }

  /** What lies on the stack for a partial, below its parameter. */
  function HeadVals(o: Options, scopes: Scopes, name: PartialName, params: seq<Expr>): seq<Val> {
    (if params == [] && o.explicitPartialContext then [VLiteral("undefined")] else [])
    + (if name.DynamicName? then [NameVal(o, scopes, name)] else [])
  }

  lemma {:induction false} PartialChosen(o: Options, scopes: Scopes, name: PartialName, params: seq<Expr>, hash: Hash,
                                         program: Val, indent: string, r: Register, vals: seq<Val>)
    requires |params| <= 1 && r.Stored?
    requires vals == HeadVals(o, scopes, name, params) + ParamVals(o, scopes, PartialParams(o, params))
    ensures |vals| == 1 + if name.DynamicName? then 1 else 0
    ensures PartialVal(o, scopes, name, params, hash, program, indent, r)
            == VPartial(if name.DynamicName? then vals[0] else VString(PartialTitle(name)), vals[|vals| - 1],
                        MakeOptions(PartialTitle(name), HashVal(o, scopes, hash, true), program, VNull), indent)
  {
    hide HashVal, ExprVal, ParamVals, PartialParams, MakeOptions, PathVal, HelperVal, PartialTitle, NameVal, ContextVal;
    PartialParamVals(o, scopes, params);
    NameAndContext(o, scopes, name, params);
  }

  lemma {:induction false} NameAndContext(o: Options, scopes: Scopes, name: PartialName, params: seq<Expr>)
    ensures name.StaticName? ==> NameVal(o, scopes, name) == VString(PartialTitle(name))
    ensures params == [] && o.explicitPartialContext ==> ContextVal(o, scopes, params) == VLiteral("undefined")
  {
    hide ExprVal;
  }

  lemma {:induction false} ContentRuns(value: string, st: State, children: nat)
    returns (after: State)
    requires Ready(st)
    ensures Exec(if value != "" then [AppendContent(value)] else [], st, children) == Some(after)
    ensures Wrote(st, after, [LContent(value)], [], Stored(st.options))
  {
    hide Output, Explode, Exec;
    after := st.(pendingContent := st.pendingContent + value);
    AppendContentRuns(value, st, children);
    OutputSplit(st);
    OutputSplit(after);
    ExplodeOne(LContent(value));
    LettersJoin(st.pendingContent, value);
    hide Letters;
    assert st.decorators + [] == st.decorators;
  }

  lemma {:induction false} LettersJoin(a: string, b: string)
    ensures Letters(a + b) == Letters(a) + Letters(b)
  {
  }

  lemma {:induction false} AppendContentRuns(value: string, st: State, children: nat)
    ensures Exec(if value != "" then [AppendContent(value)] else [], st, children)
            == Some(st.(pendingContent := st.pendingContent + value))
  {
    if value == "" {
      assert st.pendingContent + value == st.pendingContent;
    } else {
      ExecOne(AppendContent(value), st, children);
    }
  }

  lemma {:induction false} KidsCounted(o: Options, scopes: Scopes, s: Statement, next: nat)
    ensures |StatementCode(o, scopes, s, next).children| == KidCount(s)
  {
    hide Compile;
  }

  lemma {:induction false} StatementRuns(o: Options, scopes: Scopes, s: Statement, next: nat, st: State, children: nat)
    returns (after: State)
    requires Ready(st) && LegalStatement(o, scopes, s) && next + KidCount(s) <= children
    ensures Exec(StatementCode(o, scopes, s, next).opcodes, st, children) == Some(after)
    ensures Wrote(st, after, StatementLines(o, scopes, s, next, Stored(st.options)),
                  StatementDecorators(o, scopes, s, next), NextRegister(o, scopes, s, next, Stored(st.options)))
  {
    hide Compile, MustacheOps, BlockOps, PartialOps, ParamsOps, HashOps, Exec, Wrote, MustacheVal, BlockLines,
         PartialVal;
    hide LegalProgram, LegalParams, LegalHash, LegalHelper, ClassifySexpr, ParamVals, HashVal, AmbiguousOptions,
         MakeOptions;
    match s
    case Mustache(call, escaped) =>
      var mid := MustacheRuns(o, scopes, call, st, children);
      after := ValueWritten(MustacheOps(o, scopes, call), escaped && !o.noEscape,
                            MustacheVal(o, scopes, call), st, mid, children);
    case Block(call, program, inverse) =>
      after := BlockRuns(o, scopes, call, Guid(program, next), Guid(inverse, next + ProgramCount(program)), st,
                         children);
    case DecoratorBlock(call, program) =>
      after := DecoratorRuns(o, scopes, call, Guid(program, next), st, children);
    case Partial(name, params, hash, program, indent) =>
      after := PartialRuns(o, scopes, name, params, hash, Guid(program, next), indent, st, children);
    case Content(value) =>
      after := ContentRuns(value, st, children);
    case Comment =>
      after := st;
      CommentRuns(st, children);
  }

  lemma {:induction false} CommentRuns(st: State, children: nat)
    requires Ready(st)
    ensures Exec([], st, children) == Some(st) && Wrote(st, st, [], [], Stored(st.options))
  {
    assert Output(st) + [] == Output(st);
    assert st.decorators + [] == st.decorators;
  }

  lemma {:induction false} BodyRuns(o: Options, scopes: Scopes, body: seq<Statement>, next: nat, st: State,
                                    children: nat)
    returns (after: State)
    requires Ready(st) && LegalBody(o, scopes, body)
    requires next + |BodyCode(o, scopes, body, next).children| <= children
    ensures Exec(BodyCode(o, scopes, body, next).opcodes, st, children) == Some(after)
    ensures Ready(after)
    ensures Output(after) == Output(st) + Explode(BodyLines(o, scopes, body, next, Stored(st.options)))
    ensures after.decorators == st.decorators + BodyDecorators(o, scopes, body, next)
  {
    hide StatementCode, LegalStatement, Exec, Exec1, StatementLines, StatementDecorators, NextRegister, Explode,
         KidCount, Output;
    if body == [] {
      after := st;
      CommentRuns(st, children);
      assert Wrote(st, st, [], [], Stored(st.options));
    } else {
      var first := StatementCode(o, scopes, body[0], next);
      KidsCounted(o, scopes, body[0], next);
      var mid := StatementRuns(o, scopes, body[0], next, st, children);
      var rest := BodyCode(o, scopes, body[1..], next + |first.children|);
      Then(first.opcodes, rest.opcodes, st, mid, children);
      after := BodyRuns(o, scopes, body[1..], next + |first.children|, mid, children);
      ExplodeJoin(StatementLines(o, scopes, body[0], next, Stored(st.options)),
                  BodyLines(o, scopes, body[1..], next + KidCount(body[0]), Stored(mid.options)));
    }
  }

  /** A program of a single push leaves its value on the stack, and is refused. */
  lemma {:induction false} LeftoverRefused(op: Opcode)
    requires op in {PushContext, PushProgram(None), EmptyHash(false), EmptyHash(true)}
             || op.PushString? || op.PushLiteral?
    ensures CompileEnv(Environment([op], [])).None?
  {
    hide Exec1;
    assert CompileChildren([]) == Some([]);
    ExecOne(op, START, 0);
    LeavesOne(op);
  }

  lemma {:induction false} LeavesOne(op: Opcode)
    requires op in {PushContext, PushProgram(None), EmptyHash(false), EmptyHash(true)}
             || op.PushString? || op.PushLiteral?
    ensures Exec1(op, START, 0).Some? && Exec1(op, START, 0).value.inlineStack != []
  {
  }

  // ---------------------------------------------------------------------------
  // Whole templates.

  function Observe(c: Compiled): Meaning
    decreases c, 1
  {
    Meaning(Explode(c.source), c.decorators, ObserveAll(c.programs))
  }

  function ObserveAll(programs: seq<Compiled>): (meanings: seq<Meaning>)
    ensures |meanings| == |programs|
    decreases programs, 0
  {
    if programs == [] then [] else [Observe(programs[0])] + ObserveAll(programs[1..])
  }

  lemma {:induction false} ObserveJoin(a: seq<Compiled>, b: seq<Compiled>)
    ensures ObserveAll(a + b) == ObserveAll(a) + ObserveAll(b)
  {
    if a == [] {
      assert a + b == b;
    } else {
      assert (a + b)[0] == a[0] && (a + b)[1..] == a[1..] + b;
      ObserveJoin(a[1..], b);
    }
  }

  lemma {:induction false} CompileChildrenJoin(a: seq<Environment>, b: seq<Environment>)
    requires CompileChildren(a).Some? && CompileChildren(b).Some?
    ensures CompileChildren(a + b) == Some(CompileChildren(a).value + CompileChildren(b).value)
  {
    hide CompileEnv;
    if a == [] {
      assert a + b == b;
      assert CompileChildren(a).value + CompileChildren(b).value == CompileChildren(b).value;
    } else {
      assert (a + b)[0] == a[0] && (a + b)[1..] == a[1..] + b;
      CompileChildrenJoin(a[1..], b);
      var first := [CompileEnv(a[0]).value];
      assert first + (CompileChildren(a[1..]).value + CompileChildren(b).value)
          == (first + CompileChildren(a[1..]).value) + CompileChildren(b).value;
    }
  }

  /** The programs nested in a body, compiled and observed. */
  predicate ChildrenMean(children: seq<Environment>, meanings: seq<Meaning>) {
    var compiled := CompileChildren(children);
    compiled.Some? && ObserveAll(compiled.value) == meanings
  }

  lemma {:induction false} ChildrenMeanJoin(a: seq<Environment>, b: seq<Environment>, ma: seq<Meaning>,
                                            mb: seq<Meaning>)
    requires ChildrenMean(a, ma) && ChildrenMean(b, mb)
    ensures ChildrenMean(a + b, ma + mb)
  {
    CompileChildrenJoin(a, b);
    ObserveJoin(CompileChildren(a).value, CompileChildren(b).value);
  }

  const INITIAL := Stored(VNull)

  /** No pop of an empty stack, nothing left behind, and the lines and decorators of the syntax tree. */
  lemma {:induction false} ProgramRuns(o: Options, scopes: Scopes, program: Program)
    requires LegalProgram(o, scopes, Some(program))
    ensures CompileEnv(Compile(o, scopes, program)).Some?
    ensures Observe(CompileEnv(Compile(o, scopes, program)).value) == ProgramMeaning(o, scopes, program, INITIAL)
    decreases program, 1
  {
    hide BodyCode, LegalBody, Exec, BodyLines, BodyDecorators, BodyNested, Explode, CompileChildren, ObserveAll,
         PushSource;
    var inner := [program.blockParams] + scopes;
    var code := BodyCode(o, inner, program.body, 0);
    var st := BodyRuns(o, inner, program.body, 0, START, |code.children|);
    BodyNestedRuns(o, inner, program.body, 0);
    assert Output(START) == [] by { StartIsBlank(); }
    assert START.decorators + BodyDecorators(o, inner, program.body, 0) == BodyDecorators(o, inner, program.body, 0);
    FlushPending(st);
  }

  lemma {:induction false} StartIsBlank()
    ensures Output(START) == []
  {
    assert START.source + [LContent("")] == [LContent("")];
    ExplodeOne(LContent(""));
    assert Letters("") == [];
  }

  lemma {:induction false} ChildRuns(o: Options, scopes: Scopes, program: Option<Program>)
    requires LegalProgram(o, scopes, program)
    ensures ChildrenMean(Child(o, scopes, program), ChildMeaning(o, scopes, program, INITIAL))
    decreases program, 2
  {
    hide Compile, LegalBody, CompileEnv, Observe, ProgramMeaning;
    if program.Some? {
      ProgramRuns(o, scopes, program.value);
      OneChildMeans(Compile(o, scopes, program.value));
    }
  }

  lemma {:induction false} OneChildMeans(env: Environment)
    requires CompileEnv(env).Some?
    ensures ChildrenMean([env], [Observe(CompileEnv(env).value)])
  {
    hide CompileEnv, Observe;
    assert [env][1..] == [];
    var compiled := CompileEnv(env).value;
    assert CompileChildren([]) == Some([]);
    assert [compiled] + [] == [compiled];
    assert CompileChildren([env]) == Some([compiled]);
    assert [compiled][1..] == [];
    assert ObserveAll([]) == [];
  }

  lemma {:induction false} StatementNestedRuns(o: Options, scopes: Scopes, s: Statement, next: nat)
    requires LegalStatement(o, scopes, s)
    ensures ChildrenMean(StatementCode(o, scopes, s, next).children, StatementNested(o, scopes, s, INITIAL))
    decreases s, 1
  {
    hide Child, ChildMeaning, ChildrenMean, LegalProgram, LegalParams, LegalHash, LegalHelper, ClassifySexpr;
    assert ChildrenMean([], []) by { NoChildrenMean(); }
    match s
    case Block(_, program, inverse) =>
      ChildRuns(o, scopes, program);
      ChildRuns(o, scopes, inverse);
      ChildrenMeanJoin(Child(o, scopes, program), Child(o, scopes, inverse),
                       ChildMeaning(o, scopes, program, INITIAL), ChildMeaning(o, scopes, inverse, INITIAL));
    case DecoratorBlock(_, program) => ChildRuns(o, scopes, program);
    case Partial(_, _, _, program, _) => ChildRuns(o, scopes, program);
    case Mustache(_, _) =>
    case Content(_) =>
    case Comment =>
  }

  lemma {:induction false} NoChildrenMean()
    ensures ChildrenMean([], [])
  {
  }

  lemma {:induction false} BodyNestedRuns(o: Options, scopes: Scopes, body: seq<Statement>, next: nat)
    requires LegalBody(o, scopes, body)
    ensures ChildrenMean(BodyCode(o, scopes, body, next).children, BodyNested(o, scopes, body, INITIAL))
    decreases body, 0
  {
    hide StatementCode, StatementNested, ChildrenMean, LegalStatement;
    if body == [] {
      NoChildrenMean();
    } else {
      var first := StatementCode(o, scopes, body[0], next);
      StatementNestedRuns(o, scopes, body[0], next);
      BodyNestedRuns(o, scopes, body[1..], next + |first.children|);
      ChildrenMeanJoin(first.children, BodyCode(o, scopes, body[1..], next + |first.children|).children,
                       StatementNested(o, scopes, body[0], INITIAL), BodyNested(o, scopes, body[1..], INITIAL));
    }
  }

  // ---------------------------------------------------------------------------
  // When the compiled template means what was intended.

  /** Neither a dynamic partial in place of its context nor an ambiguous block without any program. */
  predicate Plain(o: Options, scopes: Scopes, s: Statement) {
    && (s.Partial? ==> !Swapped(o, s.name, s.params))
    && (AmbiguousBlock(o, scopes, s) ==> s.program.Some? || s.inverse.Some?)
  }

  predicate PlainNested(o: Options, scopes: Scopes, s: Statement)
    decreases s, 1
  {
    match s
    case Block(_, program, inverse) => PlainProgram(o, scopes, program) && PlainProgram(o, scopes, inverse)
    case DecoratorBlock(_, program) => PlainProgram(o, scopes, program)
    case Partial(_, _, _, program, _) => PlainProgram(o, scopes, program)
    case Mustache(_, _) => true
    case Content(_) => true
    case Comment => true
  }

  predicate PlainProgram(o: Options, scopes: Scopes, program: Option<Program>)
    decreases program, 2
  {
    program.Some? ==> PlainBody(o, [program.value.blockParams] + scopes, program.value.body)
  }

  predicate PlainBody(o: Options, scopes: Scopes, body: seq<Statement>)
    decreases body, 0
  {
    body == [] || (Plain(o, scopes, body[0]) && PlainNested(o, scopes, body[0]) && PlainBody(o, scopes, body[1..]))
  }

  lemma {:induction false} JoinsEqual<T>(a: seq<T>, b: seq<T>, c: seq<T>, d: seq<T>)
    requires |a| == |b|
    ensures a + c == b + d <==> a == b && c == d
  {
    if a + c == b + d {
      assert a == (a + c)[..|a|] == (b + d)[..|b|] == b;
      assert c == (a + c)[|a|..] == (b + d)[|b|..] == d;
    }
  }

  /** What the `options` variable can hold: nothing yet, or the options of a block with a program. */
  predicate Reachable(r: Register) {
    r.Stored? && (r.options == VNull || (r.options.VOptions? && r.options.fn != VNull && r.options.inverse != VNull))
  }

  lemma {:induction false} LineIntended(o: Options, scopes: Scopes, s: Statement, next: nat, r: Register)
    requires Reachable(r)
    ensures Reachable(NextRegister(o, scopes, s, next, r))
    ensures var actual, intended := StatementLines(o, scopes, s, next, r), StatementLines(o, scopes, s, next, Intended);
            && |actual| == |intended|
            && (forall i :: 0 <= i < |actual| && actual[i].LContent? ==> actual[i] == intended[i])
            && (forall i :: 0 <= i < |actual| ==> actual[i].LContent? == intended[i].LContent?)
            && (actual == intended <==> Plain(o, scopes, s))
  {
    hide ClassifySexpr, HelperVal, PathVal, HashVal, ParamVals;
    if s.Block? {
      var actual, intended := StatementLines(o, scopes, s, next, r), StatementLines(o, scopes, s, next, Intended);
      if AmbiguousBlock(o, scopes, s) && s.program.None? && s.inverse.None? {
        assert actual[1] != intended[1];
      }
    } else if s.Partial? {
      if Swapped(o, s.name, s.params) {
        var actual, intended := StatementLines(o, scopes, s, next, r), StatementLines(o, scopes, s, next, Intended);
        NameIsNoLiteral(o, scopes, s.name);
        assert actual[0] != intended[0];
      }
    }
  }

  lemma {:induction false} NameIsNoLiteral(o: Options, scopes: Scopes, name: PartialName)
    requires name.DynamicName?
    ensures !NameVal(o, scopes, name).VLiteral?
  {
    hide ClassifySexpr, ParamVals, HashVal, PathVal;
    assert !HelperVal(o, scopes, name.call, VNull, VNull).VLiteral?;
    assert !ExprVal(o, scopes, SubExpression(name.call)).VLiteral?;
  }

  lemma {:induction false} ExplodeEqual(a: seq<Line>, b: seq<Line>)
    requires |a| == |b|
    requires forall i :: 0 <= i < |a| && a[i].LContent? ==> a[i] == b[i]
    requires forall i :: 0 <= i < |a| ==> a[i].LContent? == b[i].LContent?
    ensures |Explode(a)| == |Explode(b)|
    ensures Explode(a) == Explode(b) <==> a == b
  {
    if a != [] {
      ExplodeEqual(a[1..], b[1..]);
      var x := if a[0].LContent? then Letters(a[0].text) else [a[0]];
      var y := if b[0].LContent? then Letters(b[0].text) else [b[0]];
      JoinsEqual(x, y, Explode(a[1..]), Explode(b[1..]));
      assert a == [a[0]] + a[1..] && b == [b[0]] + b[1..];
    }
  }

  predicate BodyPlainHere(o: Options, scopes: Scopes, body: seq<Statement>) {
    body == [] || (Plain(o, scopes, body[0]) && BodyPlainHere(o, scopes, body[1..]))
  }

  lemma {:induction false} LinesIntended(o: Options, scopes: Scopes, body: seq<Statement>, next: nat, r: Register)
    requires Reachable(r)
    ensures |Explode(BodyLines(o, scopes, body, next, r))| == |Explode(BodyLines(o, scopes, body, next, Intended))|
    ensures Explode(BodyLines(o, scopes, body, next, r)) == Explode(BodyLines(o, scopes, body, next, Intended))
            <==> BodyPlainHere(o, scopes, body)
  {
    hide StatementLines, Plain, NextRegister, Explode, KidCount;
    if body != [] {
      var actual, intended := StatementLines(o, scopes, body[0], next, r),
                              StatementLines(o, scopes, body[0], next, Intended);
      var n, r' := next + KidCount(body[0]), NextRegister(o, scopes, body[0], next, r);
      LineIntended(o, scopes, body[0], next, r);
      IntendedStays(o, scopes, body[0], next);
      ExplodeEqual(actual, intended);
      LinesIntended(o, scopes, body[1..], n, r');
      var isRest, shouldRest := BodyLines(o, scopes, body[1..], n, r'), BodyLines(o, scopes, body[1..], n, Intended);
      ExplodeJoin(actual, isRest);
      ExplodeJoin(intended, shouldRest);
      JoinsEqual(Explode(actual), Explode(intended), Explode(isRest), Explode(shouldRest));
    }
  }

  lemma {:induction false} IntendedStays(o: Options, scopes: Scopes, s: Statement, next: nat)
    ensures NextRegister(o, scopes, s, next, Intended) == Intended
  {
  }

  lemma {:induction false} ProgramIntended(o: Options, scopes: Scopes, program: Program)
    ensures ProgramMeaning(o, scopes, program, INITIAL) == ProgramMeaning(o, scopes, program, Intended)
            <==> PlainProgram(o, scopes, Some(program))
    decreases program, 1
  {
    hide BodyLines, BodyNested, BodyDecorators, Explode, PlainBody, BodyPlainHere;
    var inner := [program.blockParams] + scopes;
    LinesIntended(o, inner, program.body, 0, INITIAL);
    NestedIntended(o, inner, program.body);
  }

  lemma {:induction false} ChildIntended(o: Options, scopes: Scopes, program: Option<Program>)
    ensures |ChildMeaning(o, scopes, program, INITIAL)| == |ChildMeaning(o, scopes, program, Intended)|
    ensures ChildMeaning(o, scopes, program, INITIAL) == ChildMeaning(o, scopes, program, Intended)
            <==> PlainProgram(o, scopes, program)
    decreases program, 2
  {
    hide ProgramMeaning;
    if program.Some? {
      ProgramIntended(o, scopes, program.value);
      var actual, intended := ProgramMeaning(o, scopes, program.value, INITIAL),
                              ProgramMeaning(o, scopes, program.value, Intended);
      assert [actual][0] == actual && [intended][0] == intended;
    }
  }

  lemma {:induction false} StatementIntended(o: Options, scopes: Scopes, s: Statement)
    ensures |StatementNested(o, scopes, s, INITIAL)| == |StatementNested(o, scopes, s, Intended)|
    ensures StatementNested(o, scopes, s, INITIAL) == StatementNested(o, scopes, s, Intended)
            <==> PlainNested(o, scopes, s)
    decreases s, 1
  {
    hide ChildMeaning, PlainProgram;
    match s
    case Block(_, program, inverse) =>
      ChildIntended(o, scopes, program);
      ChildIntended(o, scopes, inverse);
      JoinsEqual(ChildMeaning(o, scopes, program, INITIAL), ChildMeaning(o, scopes, program, Intended),
                 ChildMeaning(o, scopes, inverse, INITIAL), ChildMeaning(o, scopes, inverse, Intended));
    case DecoratorBlock(_, program) => ChildIntended(o, scopes, program);
    case Partial(_, _, _, program, _) => ChildIntended(o, scopes, program);
    case Mustache(_, _) =>
    case Content(_) =>
    case Comment =>
  }

  lemma {:induction false} NestedIntended(o: Options, scopes: Scopes, body: seq<Statement>)
    ensures BodyPlainHere(o, scopes, body)
            && BodyNested(o, scopes, body, INITIAL) == BodyNested(o, scopes, body, Intended)
            <==> PlainBody(o, scopes, body)
    decreases body, 0
  {
    hide StatementNested, PlainNested, Plain;
    if body != [] {
      StatementIntended(o, scopes, body[0]);
      NestedIntended(o, scopes, body[1..]);
      JoinsEqual(StatementNested(o, scopes, body[0], INITIAL), StatementNested(o, scopes, body[0], Intended),
                 BodyNested(o, scopes, body[1..], INITIAL), BodyNested(o, scopes, body[1..], Intended));
    }
  }

  /** The compiler is correct: every template it accepts compiles without a stack error, and means what
      its syntax tree means exactly when all its statements, at every depth, are plain. */
  lemma {:induction false} CompilerCorrect(o: Options, scopes: Scopes, program: Program)
    requires LegalProgram(o, scopes, Some(program))
    ensures CompileEnv(Compile(o, scopes, program)).Some?
    ensures Observe(CompileEnv(Compile(o, scopes, program)).value) == ProgramMeaning(o, scopes, program, Intended)
            <==> PlainProgram(o, scopes, Some(program))
  {
    hide Compile, CompileEnv, Observe, ProgramMeaning, PlainProgram, LegalProgram;
    ProgramRuns(o, scopes, program);
    ProgramIntended(o, scopes, program);
  }
}
