/** The second half of the template compiler in src/main/webapp/api/lib/handlebars-4.0.5.js:
    the machine that runs the opcodes on a stack split in two, an inline part that holds
    expressions and a compiled part that holds variables.  Expressions are trees here, where
    the original builds JavaScript text. */
module HandlebarsMachine {
  import opened Wrappers
  import opened HandlebarsCompiler

  datatype Val =
    | VContext(depth: nat)
    | VData(depth: nat)
    | VBlockParam(scope: nat, index: nat)
    | VString(value: string)
    | VLiteral(text: string)
    | VNull
    | VNoop
    | VProgram(guid: nat)
    | VHash(values: map<string, Val>)
    | VSelect(base: Val, name: string, falsy: bool)
    | VLambda(target: Val)
    | VOptions(name: string, hash: Val, fn: Val, inverse: Val)
    | VKnownHelper(name: string, params: seq<Val>, options: Val)
    | VHelper(original: string, simpleId: bool, nonHelper: Val, params: seq<Val>, options: Val)
    | VAmbiguous(name: string, nonHelper: Val, options: Val)
    | VBlockHelperMissing(target: Val, options: Val)
    | VPartial(target: Val, context: Val, options: Val, indent: string)
    | VStack(slot: nat)

  /** `literal` marks the values that need no variable. */
  datatype Item = Item(val: Val, literal: bool)

  datatype Line =
    | LContent(text: string)
    | LAppend(val: Val)
    | LAppendEscaped(val: Val)
    | LAssign(slot: nat, val: Val)
    | LUnlessHelper(helper: string, target: Val, call: Val)

  datatype State = State(
    inlineStack: seq<Item>,
    compileStack: seq<Item>,
    stackSlot: nat,
    hash: Option<map<string, Val>>,
    hashes: seq<map<string, Val>>,
    lastContext: nat,
    options: Val,         // what the `options` variable of the generated code holds
    lastHelper: string,
    pendingContent: string,
    source: seq<Line>,
    decorators: seq<Val>)

  const START := State([], [], 0, None, [], 0, VNull, "", "", [], [])

  // ---------------------------------------------------------------------------
  // The stack.

  function Push(st: State, val: Val): State {
    st.(inlineStack := st.inlineStack + [Item(val, false)])
  }

  function PushLit(st: State, val: Val): State {
    st.(inlineStack := st.inlineStack + [Item(val, true)])
  }

  /** popStack: the inline part first; popping an empty stack is an error. */
  function Pop(st: State): Option<(Val, State)> {
    if st.inlineStack != [] then
      var last := |st.inlineStack| - 1;
      Some((st.inlineStack[last].val, st.(inlineStack := st.inlineStack[..last])))
    else if st.compileStack != [] then
      var last := |st.compileStack| - 1;
      var popped := st.(compileStack := st.compileStack[..last]);
      if st.compileStack[last].literal then Some((st.compileStack[last].val, popped))
      else if st.stackSlot == 0 then None
      else Some((st.compileStack[last].val, popped.(stackSlot := st.stackSlot - 1)))
    else None
  }

  /** Pops `n` values, last first, and returns them in source order. */
  function PopParams(st: State, n: nat): (r: Option<(seq<Val>, State)>)
    ensures r.Some? ==> |r.value.0| == n
    decreases n
  {
    if n == 0 then Some(([], st))
    else
      var (last, popped) :- Pop(st);
      var (params, rest) :- PopParams(popped, n - 1);
      Some((params + [last], rest))
  }

  /** replaceStack with one path segment as the callback. */
  function Select(st: State, name: string, falsy: bool): Option<State> {
    if st.inlineStack == [] then None
    else
      var last := |st.inlineStack| - 1;
      Some(Push(st.(inlineStack := st.inlineStack[..last]), VSelect(st.inlineStack[last].val, name, falsy)))
  }

  function ResolvePath(st: State, parts: seq<string>, falsy: bool): Option<State>
    decreases |parts|
  {
    if parts == [] then Some(st)
    else
      var selected :- Select(st, parts[0], falsy);
      ResolvePath(selected, parts[1..], falsy)
  }

  function PushSource(st: State, lines: seq<Line>): State {
    st.(source := st.source + (if st.pendingContent != "" then [LContent(st.pendingContent)] else []) + lines,
        pendingContent := "")
  }

  /** A literal moves to the compiled stack as it is, any other value through a new variable. */
  function FlushItem(st: State, item: Item): State {
    if item.literal then st.(compileStack := st.compileStack + [item])
    else
      var slot := st.stackSlot + 1;
      PushSource(st, [LAssign(slot, item.val)]).(
        stackSlot := slot, compileStack := st.compileStack + [Item(VStack(slot), false)])
  }

  function FlushFrom(st: State, items: seq<Item>): State
    decreases |items|
  {
    if items == [] then st else FlushFrom(FlushItem(st, items[0]), items[1..])
  }

  function FlushInline(st: State): State {
    FlushFrom(st.(inlineStack := []), st.inlineStack)
  }

  // ---------------------------------------------------------------------------
  // The opcodes.

  /** setupParams: hash, inverse and program, then the parameters. */
  function SetupParams(st: State, name: string, paramSize: nat): (r: Option<(seq<Val>, Val, State)>)
    ensures r.Some? ==> |r.value.0| == paramSize
  {
    var (hash, st1) :- Pop(st);
    var (inverse, st2) :- Pop(st1);
    var (program, st3) :- Pop(st2);
    var (params, st4) :- PopParams(st3, paramSize);
    Some((params, MakeOptions(name, hash, program, inverse), st4))
  }

  /** Neither fn nor inverse is set when there is no block; one alone gets a no-op partner. */
  function MakeOptions(name: string, hash: Val, program: Val, inverse: Val): Val {
    if program == VNull && inverse == VNull then VOptions(name, hash, VNull, VNull)
    else VOptions(name, hash, if program == VNull then VNoop else program, if inverse == VNull then VNoop else inverse)
  }

  function EmptyHashVal(omitEmpty: bool): Val {
    if omitEmpty then VLiteral("undefined") else VHash(map[])
  }

  /** `children` is how many programs the environment holds. */
  function Exec1(op: Opcode, st: State, children: nat): Option<State> {
    match op
    case GetContext(depth) => Some(st.(lastContext := depth))
    case PushContext => Some(PushLit(st, VContext(st.lastContext)))
    case LookupBlockParam(scope, index, parts) =>
      if parts == [] then Some(Push(st, VBlockParam(scope, index)))
      else ResolvePath(Push(st, VBlockParam(scope, index)), parts[1..], false)
    case LookupData(depth, parts) => ResolvePath(PushLit(st, VData(depth)), parts, true)
    case LookupOnContext(parts, falsy) => ResolvePath(PushLit(st, VContext(st.lastContext)), parts, falsy)
    case PushString(value) => Some(PushLit(st, VString(value)))
    case PushLiteral(text) => Some(PushLit(st, VLiteral(text)))
    case PushHash =>
      Some(st.(hashes := if st.hash.Some? then st.hashes + [st.hash.value] else st.hashes, hash := Some(map[])))
    case AssignToHash(key) =>
      var (value, popped) :- Pop(st);
      var hash :- popped.hash;
      Some(popped.(hash := Some(hash[key := value])))
    case PopHash =>
      var hash :- st.hash;
      var outer := if st.hashes == [] then st.(hash := None)
                   else st.(hash := Some(st.hashes[|st.hashes| - 1]), hashes := st.hashes[..|st.hashes| - 1]);
      Some(Push(outer, VHash(hash)))
    case EmptyHash(omitEmpty) => Some(PushLit(st, EmptyHashVal(omitEmpty)))
    case PushProgram(guid) =>
      if guid == None then Some(PushLit(st, VNull))
      else if guid.value < children then Some(PushLit(st, VProgram(guid.value)))
      else None
    case InvokeKnownHelper(paramSize, name) =>
      var (params, options, rest) :- SetupParams(st, name, paramSize);
      Some(Push(rest, VKnownHelper(name, params, options)))
    case InvokeHelper(paramSize, original, simpleId) =>
      var (nonHelper, popped) :- Pop(st);
      var (params, options, rest) :- SetupParams(popped, original, paramSize);
      Some(Push(rest, VHelper(original, simpleId, nonHelper, params, options)))
    case InvokeAmbiguous(name, isBlock) =>
      var (nonHelper, popped) :- Pop(st);
      var (_, options, rest) :- SetupParams(PushLit(popped, EmptyHashVal(false)), name, 0);
      var called := Push(rest, VAmbiguous(name, nonHelper, options)).(lastHelper := name);
      Some(if isBlock then called.(options := options) else called)
    case ResolvePossibleLambda =>
      var (value, popped) :- Pop(st);
      Some(Push(popped, VLambda(value)))
    case BlockValue(name) =>
      var (_, options, rest) :- SetupParams(st, name, 0);
      var (value, popped) :- Pop(rest);
      Some(Push(popped, VBlockHelperMissing(value, options)))
    case AmbiguousBlockValue =>
      var (_, _, rest) :- SetupParams(st, "", 0);
      var flushed := FlushInline(rest);
      if flushed.compileStack == [] then None
      else
        var current := flushed.compileStack[|flushed.compileStack| - 1].val;
        Some(PushSource(flushed, [LUnlessHelper(st.lastHelper, current, VBlockHelperMissing(current, st.options))]))
    case Append =>
      var (value, popped) :- Pop(st);
      Some(PushSource(popped, [LAppend(value)]))
    case AppendEscaped =>
      var (value, popped) :- Pop(st);
      Some(PushSource(popped, [LAppendEscaped(value)]))
    case AppendContent(content) => Some(st.(pendingContent := st.pendingContent + content))
    case RegisterDecorator(paramSize, name) =>
      var (params, options, rest) :- SetupParams(st, name, paramSize);
      Some(rest.(decorators := rest.decorators + [VKnownHelper(name, params, options)]))
    case InvokePartial(isDynamic, name, indent) =>
      var (params, options, rest) :- SetupParams(st, name, 1);
      if isDynamic then
        var (target, popped) :- Pop(rest);
        Some(Push(popped, VPartial(target, params[0], options, indent)))
      else Some(Push(rest, VPartial(VString(name), params[0], options, indent)))
  }

  function Exec(ops: seq<Opcode>, st: State, children: nat): Option<State>
    decreases |ops|
  {
    if ops == [] then Some(st)
    else
      var next :- Exec1(ops[0], st, children);
      Exec(ops[1..], next, children)
  }

  // ---------------------------------------------------------------------------
  // Whole environments.

  /** What JavaScriptCompiler.compile makes of an environment and of the programs in it. */
  datatype Compiled = Compiled(source: seq<Line>, decorators: seq<Val>, programs: seq<Compiled>)

  /** None where the original throws: an invalid pop, or content left on the stack. */
  function CompileEnv(env: Environment): Option<Compiled>
    decreases env, 1
  {
    var programs :- CompileChildren(env.children);
    var st :- Exec(env.opcodes, START, |env.children|);
    var flushed := PushSource(st, []);
    if st.stackSlot != 0 || st.inlineStack != [] || st.compileStack != [] then None
    else Some(Compiled(flushed.source, st.decorators, programs))
  }

  function CompileChildren(children: seq<Environment>): Option<seq<Compiled>>
    decreases children, 0
  {
    if children == [] then Some([])
    else
      var first :- CompileEnv(children[0]);
      var rest :- CompileChildren(children[1..]);
      Some([first] + rest)
  }
}
