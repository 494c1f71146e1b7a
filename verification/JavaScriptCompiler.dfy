/** The machine of src/main/webapp/api/lib/handlebars-4.0.5.js with its mutable fields.  Every
    method is proved equal to a function of HandlebarsMachine on the state before the call;
    a result `ok` of false stands for an exception. */
module JavaScriptCompilers {
  import opened Wrappers
  import opened HandlebarsCompiler
  import opened HandlebarsMachine
  import opened HandlebarsPrograms

  class JavaScriptCompiler {
    var inlineStack: seq<Item>
    var compileStack: seq<Item>
    var stackSlot: nat
    var hash: Option<map<string, Val>>
    var hashes: seq<map<string, Val>>
    var lastContext: nat
    var options: Val
    var lastHelper: string
    var pendingContent: string
    var source: seq<Line>
    var decorators: seq<Val>

    function Snapshot(): State
      reads this
    {
      State(inlineStack, compileStack, stackSlot, hash, hashes, lastContext, options, lastHelper, pendingContent,
            source, decorators)
    }

    constructor ()
      ensures Snapshot() == START
    {
      inlineStack, compileStack, stackSlot := [], [], 0;
      hash, hashes, lastContext, options, lastHelper := None, [], 0, VNull, "";
      pendingContent, source, decorators := "", [], [];
    }

    method Push(val: Val)
      modifies this
      ensures Snapshot() == HandlebarsMachine.Push(old(Snapshot()), val)
    {
      inlineStack := inlineStack + [Item(val, false)];
    }

    method PushStackLiteral(val: Val)
      modifies this
      ensures Snapshot() == PushLit(old(Snapshot()), val)
    {
      inlineStack := inlineStack + [Item(val, true)];
    }

    method PopStack() returns (ok: bool, val: Val)
      modifies this
      ensures ok == Pop(old(Snapshot())).Some?
      ensures ok ==> Pop(old(Snapshot())) == Some((val, Snapshot()))
    {
      val := VNull;
      if inlineStack != [] {
        val := inlineStack[|inlineStack| - 1].val;
        inlineStack := inlineStack[..|inlineStack| - 1];
        return true, val;
      }
      if compileStack == [] {
        return false, val;
      }
      var item := compileStack[|compileStack| - 1];
      compileStack := compileStack[..|compileStack| - 1];
      if !item.literal {
        if stackSlot == 0 {
          return false, val;
        }
        stackSlot := stackSlot - 1;
      }
      ok, val := true, item.val;
    }

    /** replaceStack with a path lookup: a variable is reserved for a value that is not literal,
        and given back. */
    method SelectTop(name: string, falsy: bool) returns (ok: bool)
      modifies this
      ensures ok == Select(old(Snapshot()), name, falsy).Some?
      ensures ok ==> Select(old(Snapshot()), name, falsy) == Some(Snapshot())
    {
      if inlineStack == [] {
        return false;
      }
      var top := inlineStack[|inlineStack| - 1];
      inlineStack := inlineStack[..|inlineStack| - 1];
      if !top.literal {
        stackSlot := stackSlot + 1;
        Push(VStack(stackSlot));
        var _, _ := PopStack();
        stackSlot := stackSlot - 1;
      }
      Push(VSelect(top.val, name, falsy));
      ok := true;
    }

    method ResolvePath(parts: seq<string>, start: nat, falsy: bool) returns (ok: bool)
      requires start <= |parts|
      modifies this
      ensures ok == HandlebarsMachine.ResolvePath(old(Snapshot()), parts[start..], falsy).Some?
      ensures ok ==> HandlebarsMachine.ResolvePath(old(Snapshot()), parts[start..], falsy) == Some(Snapshot())
    {
      var i := start;
      while i < |parts|
        invariant start <= i <= |parts|
        invariant HandlebarsMachine.ResolvePath(old(Snapshot()), parts[start..], falsy)
               == HandlebarsMachine.ResolvePath(Snapshot(), parts[i..], falsy)
      {
        assert parts[i..][1..] == parts[i + 1..];
        ok := SelectTop(parts[i], falsy);
        if !ok {
          return;
        }
        i := i + 1;
      }
      ok := true;
    }

    method PushSource(lines: seq<Line>)
      modifies this
      ensures Snapshot() == HandlebarsMachine.PushSource(old(Snapshot()), lines)
    {
      if pendingContent != "" {
        source := source + [LContent(pendingContent)];
        pendingContent := "";
      }
      source := source + lines;
    }

    method FlushItem(item: Item)
      modifies this
      ensures Snapshot() == HandlebarsMachine.FlushItem(old(Snapshot()), item)
    {
      if item.literal {
        compileStack := compileStack + [item];
      } else {
        stackSlot := stackSlot + 1;
        PushSource([LAssign(stackSlot, item.val)]);
        compileStack := compileStack + [Item(VStack(stackSlot), false)];
      }
    }

    method FlushInline()
      modifies this
      ensures Snapshot() == HandlebarsMachine.FlushInline(old(Snapshot()))
    {
      hide HandlebarsMachine.FlushItem;
      var items := inlineStack;
      inlineStack := [];
      var i := 0;
      while i < |items|
        invariant 0 <= i <= |items|
        invariant HandlebarsMachine.FlushInline(old(Snapshot())) == FlushFrom(Snapshot(), items[i..])
      {
        assert items[i..][1..] == items[i + 1..];
        FlushItem(items[i]);
        i := i + 1;
      }
    }

    /** `while (i--)`: each popped value goes in front of those popped before it. */
    method PopArguments(paramSize: nat) returns (ok: bool, params: seq<Val>)
      modifies this
      ensures ok == PopParams(old(Snapshot()), paramSize).Some?
      ensures ok ==> PopParams(old(Snapshot()), paramSize) == Some((params, Snapshot()))
    {
      params := [];
      var i := paramSize;
      assert PopParams(Snapshot(), i).Some? ==>
             PopParams(Snapshot(), i).value.0 + [] == PopParams(Snapshot(), i).value.0;
      while i > 0
        invariant 0 <= i <= paramSize && |params| == paramSize - i
        invariant PopParams(old(Snapshot()), paramSize) == Before(PopParams(Snapshot(), i), params)
      {
        var param;
        ghost var later := params;
        ok, param := PopStack();
        if !ok {
          return;
        }
        params := [param] + params;
        i := i - 1;
        ghost var rest := PopParams(Snapshot(), i);
        assert rest.Some? ==> (rest.value.0 + [param]) + later == rest.value.0 + params;
      }
      assert [] + params == params;
      ok := true;
    }

    method SetupParams(name: string, paramSize: nat) returns (ok: bool, params: seq<Val>, opts: Val)
      modifies this
      ensures ok == HandlebarsMachine.SetupParams(old(Snapshot()), name, paramSize).Some?
      ensures ok ==> HandlebarsMachine.SetupParams(old(Snapshot()), name, paramSize) == Some((params, opts, Snapshot()))
      ensures ok ==> |params| == paramSize
    {
      params, opts := [], VNull;
      var hashVal, inverse, program;
      ok, hashVal := PopStack();
      if ok {
        ok, inverse := PopStack();
        if ok {
          ok, program := PopStack();
          if ok {
            ok, params := PopArguments(paramSize);
            opts := MakeOptions(name, hashVal, program, inverse);
          }
        }
      }
    }

    method AssignToHash(key: string, ghost children: nat) returns (ok: bool)
      modifies this
      ensures ok == Exec1(Opcode.AssignToHash(key), old(Snapshot()), children).Some?
      ensures ok ==> Exec1(Opcode.AssignToHash(key), old(Snapshot()), children) == Some(Snapshot())
    {
      var value;
      ok, value := PopStack();
      if ok {
        if hash.None? {
          return false;
        }
        hash := Some(hash.value[key := value]);
      }
    }

    method PushHash(ghost children: nat)
      modifies this
      ensures Exec1(Opcode.PushHash, old(Snapshot()), children) == Some(Snapshot())
    {
      if hash.Some? {
        hashes := hashes + [hash.value];
      }
      hash := Some(map[]);
    }

    method PopHash(ghost children: nat) returns (ok: bool)
      modifies this
      ensures ok == Exec1(Opcode.PopHash, old(Snapshot()), children).Some?
      ensures ok ==> Exec1(Opcode.PopHash, old(Snapshot()), children) == Some(Snapshot())
    {
      if hash.None? {
        return false;
      }
      var values := hash.value;
      if hashes == [] {
        hash := None;
      } else {
        hash := Some(hashes[|hashes| - 1]);
        hashes := hashes[..|hashes| - 1];
      }
      Push(VHash(values));
      ok := true;
    }

    method InvokeKnownHelper(paramSize: nat, name: string, ghost children: nat) returns (ok: bool)
      modifies this
      ensures ok == Exec1(Opcode.InvokeKnownHelper(paramSize, name), old(Snapshot()), children).Some?
      ensures ok ==> Exec1(Opcode.InvokeKnownHelper(paramSize, name), old(Snapshot()), children) == Some(Snapshot())
    {
      hide HandlebarsMachine.SetupParams;
      var params, opts;
      ok, params, opts := SetupParams(name, paramSize);
      if ok {
        Push(VKnownHelper(name, params, opts));
      }
    }

    method InvokeHelper(paramSize: nat, original: string, simpleId: bool, ghost children: nat) returns (ok: bool)
      modifies this
      ensures ok == Exec1(Opcode.InvokeHelper(paramSize, original, simpleId), old(Snapshot()), children).Some?
      ensures ok ==>
                Exec1(Opcode.InvokeHelper(paramSize, original, simpleId), old(Snapshot()), children)
                == Some(Snapshot())
    {
      hide HandlebarsMachine.SetupParams, Pop;
      var nonHelper, params, opts;
      ok, nonHelper := PopStack();
      if ok {
        ok, params, opts := SetupParams(original, paramSize);
        if ok {
          Push(VHelper(original, simpleId, nonHelper, params, opts));
        }
      }
    }

    method InvokeAmbiguous(name: string, helperCall: bool, ghost children: nat) returns (ok: bool)
      modifies this
      ensures ok == Exec1(Opcode.InvokeAmbiguous(name, helperCall), old(Snapshot()), children).Some?
      ensures ok ==> Exec1(Opcode.InvokeAmbiguous(name, helperCall), old(Snapshot()), children) == Some(Snapshot())
    {
      hide HandlebarsMachine.SetupParams, Pop;
      var nonHelper, params, opts;
      ok, nonHelper := PopStack();
      if ok {
        PushStackLiteral(EmptyHashVal(false));
        ok, params, opts := SetupParams(name, 0);
        if ok {
          lastHelper := name;
          if helperCall {
            options := opts;
          }
          Push(VAmbiguous(name, nonHelper, opts));
        }
      }
    }

    method BlockValue(name: string, ghost children: nat) returns (ok: bool)
      modifies this
      ensures ok == Exec1(Opcode.BlockValue(name), old(Snapshot()), children).Some?
      ensures ok ==> Exec1(Opcode.BlockValue(name), old(Snapshot()), children) == Some(Snapshot())
    {
      hide HandlebarsMachine.SetupParams, Pop;
      var params, opts, blockName;
      ok, params, opts := SetupParams(name, 0);
      if ok {
        ok, blockName := PopStack();
        if ok {
          Push(VBlockHelperMissing(blockName, opts));
        }
      }
    }

    method AmbiguousBlockValue(ghost children: nat) returns (ok: bool)
      modifies this
      ensures ok == Exec1(Opcode.AmbiguousBlockValue, old(Snapshot()), children).Some?
      ensures ok ==> Exec1(Opcode.AmbiguousBlockValue, old(Snapshot()), children) == Some(Snapshot())
    {
      hide HandlebarsMachine.SetupParams, HandlebarsMachine.FlushInline, Pop;
      ghost var before := Snapshot();
      var params, opts;
      ok, params, opts := SetupParams("", 0);
      if ok {
        SetupKeeps(before, "", 0);
        FlushInlineKeeps(Snapshot());
        FlushInline();
        if compileStack == [] {
          return false;
        }
        var current := compileStack[|compileStack| - 1].val;
        PushSource([LUnlessHelper(lastHelper, current, VBlockHelperMissing(current, options))]);
      }
    }

    method RegisterDecorator(paramSize: nat, name: string, ghost children: nat) returns (ok: bool)
      modifies this
      ensures ok == Exec1(Opcode.RegisterDecorator(paramSize, name), old(Snapshot()), children).Some?
      ensures ok ==> Exec1(Opcode.RegisterDecorator(paramSize, name), old(Snapshot()), children) == Some(Snapshot())
    {
      hide HandlebarsMachine.SetupParams;
      var params, opts;
      ok, params, opts := SetupParams(name, paramSize);
      if ok {
        decorators := decorators + [VKnownHelper(name, params, opts)];
      }
    }

    method InvokePartial(isDynamic: bool, name: string, indent: string, ghost children: nat) returns (ok: bool)
      modifies this
      ensures ok == Exec1(Opcode.InvokePartial(isDynamic, name, indent), old(Snapshot()), children).Some?
      ensures ok ==> Exec1(Opcode.InvokePartial(isDynamic, name, indent), old(Snapshot()), children) == Some(Snapshot())
    {
      hide HandlebarsMachine.SetupParams, Pop;
      var params, opts;
      ok, params, opts := SetupParams(name, 1);
      if ok {
        var target := VString(name);
        if isDynamic {
          ok, target := PopStack();
        }
        if ok {
          Push(VPartial(target, params[0], opts, indent));
        }
      }
    }

    method AppendLine(escaped: bool, ghost children: nat) returns (ok: bool)
      modifies this
      ensures var op := if escaped then AppendEscaped else Append;
              && ok == Exec1(op, old(Snapshot()), children).Some?
              && (ok ==> Exec1(op, old(Snapshot()), children) == Some(Snapshot()))
    {
      var value;
      ok, value := PopStack();
      if ok {
        PushSource([if escaped then LAppendEscaped(value) else LAppend(value)]);
      }
    }

    method LookupBlockParam(scope: nat, index: nat, parts: seq<string>, ghost children: nat) returns (ok: bool)
      modifies this
      ensures ok == Exec1(Opcode.LookupBlockParam(scope, index, parts), old(Snapshot()), children).Some?
      ensures ok ==> Exec1(Opcode.LookupBlockParam(scope, index, parts), old(Snapshot()), children) == Some(Snapshot())
    {
      hide HandlebarsMachine.ResolvePath;
      Push(VBlockParam(scope, index));
      ok := true;
      if parts != [] {
        ok := ResolvePath(parts, 1, false);
      }
    }

    method LookupData(depth: nat, parts: seq<string>, ghost children: nat) returns (ok: bool)
      modifies this
      ensures ok == Exec1(Opcode.LookupData(depth, parts), old(Snapshot()), children).Some?
      ensures ok ==> Exec1(Opcode.LookupData(depth, parts), old(Snapshot()), children) == Some(Snapshot())
    {
      hide HandlebarsMachine.ResolvePath;
      PushStackLiteral(VData(depth));
      assert parts[0..] == parts;
      ok := ResolvePath(parts, 0, true);
    }

    method LookupOnContext(parts: seq<string>, falsy: bool, ghost children: nat) returns (ok: bool)
      modifies this
      ensures ok == Exec1(Opcode.LookupOnContext(parts, falsy), old(Snapshot()), children).Some?
      ensures ok ==> Exec1(Opcode.LookupOnContext(parts, falsy), old(Snapshot()), children) == Some(Snapshot())
    {
      hide HandlebarsMachine.ResolvePath;
      PushStackLiteral(VContext(lastContext));
      assert parts[0..] == parts;
      ok := ResolvePath(parts, 0, falsy);
    }

    method PushProgram(guid: Option<nat>, children: nat) returns (ok: bool)
      modifies this
      ensures ok == Exec1(Opcode.PushProgram(guid), old(Snapshot()), children).Some?
      ensures ok ==> Exec1(Opcode.PushProgram(guid), old(Snapshot()), children) == Some(Snapshot())
    {
      ok := true;
      if guid == None {
        PushStackLiteral(VNull);
      } else if guid.value < children {
        PushStackLiteral(VProgram(guid.value));
      } else {
        ok := false;
      }
    }

    method ResolvePossibleLambda(ghost children: nat) returns (ok: bool)
      modifies this
      ensures ok == Exec1(Opcode.ResolvePossibleLambda, old(Snapshot()), children).Some?
      ensures ok ==> Exec1(Opcode.ResolvePossibleLambda, old(Snapshot()), children) == Some(Snapshot())
    {
      var value;
      ok, value := PopStack();
      if ok {
        Push(VLambda(value));
      }
    }

    /** The opcodes that only set a register or push a literal. */
    method PushPlain(op: Opcode, ghost children: nat)
      requires op.GetContext? || op.PushContext? || op.PushString? || op.PushLiteral? || op.EmptyHash?
               || op.AppendContent?
      modifies this
      ensures Exec1(op, old(Snapshot()), children) == Some(Snapshot())
    {
      match op
      case GetContext(depth) => lastContext := depth;
      case PushContext => PushStackLiteral(VContext(lastContext));
      case PushString(value) => PushStackLiteral(VString(value));
      case PushLiteral(text) => PushStackLiteral(VLiteral(text));
      case EmptyHash(omitEmpty) => PushStackLiteral(EmptyHashVal(omitEmpty));
      case AppendContent(content) => pendingContent := pendingContent + content;
    }

    /** One opcode of an environment with `children` programs. */
    method Step(op: Opcode, children: nat) returns (ok: bool)
      modifies this
      ensures ok == Exec1(op, old(Snapshot()), children).Some?
      ensures ok ==> Exec1(op, old(Snapshot()), children) == Some(Snapshot())
    {
      hide *;
      ok := true;
      match op {
        case LookupBlockParam(scope, index, parts) => ok := LookupBlockParam(scope, index, parts, children);
        case LookupData(depth, parts) => ok := LookupData(depth, parts, children);
        case LookupOnContext(parts, falsy) => ok := LookupOnContext(parts, falsy, children);
        case PushHash => PushHash(children);
        case AssignToHash(key) => ok := AssignToHash(key, children);
        case PopHash => ok := PopHash(children);
        case PushProgram(guid) => ok := PushProgram(guid, children);
        case InvokeKnownHelper(paramSize, name) => ok := InvokeKnownHelper(paramSize, name, children);
        case InvokeHelper(paramSize, original, simpleId) => ok := InvokeHelper(paramSize, original, simpleId, children);
        case InvokeAmbiguous(name, isBlock) => ok := InvokeAmbiguous(name, isBlock, children);
        case ResolvePossibleLambda => ok := ResolvePossibleLambda(children);
        case BlockValue(name) => ok := BlockValue(name, children);
        case AmbiguousBlockValue => ok := AmbiguousBlockValue(children);
        case Append => ok := AppendLine(false, children);
        case AppendEscaped => ok := AppendLine(true, children);
        case RegisterDecorator(paramSize, name) => ok := RegisterDecorator(paramSize, name, children);
        case InvokePartial(isDynamic, name, indent) => ok := InvokePartial(isDynamic, name, indent, children);
        case _ => PushPlain(op, children);
      }
    }

    /** compile, with compileChildren: false where content is left on a stack or a step fails. */
    method Compile(env: Environment) returns (ok: bool, programs: seq<Compiled>)
      requires Snapshot() == START
      modifies this
      ensures ok == CompileEnv(env).Some?
      ensures ok ==> CompileEnv(env) == Some(Compiled(source, decorators, programs))
      decreases env, 1
    {
      hide Exec1;
      ok, programs := Children(env.children);
      if !ok {
        return;
      }
      ghost var start := Snapshot();
      var n, i := |env.children|, 0;
      while i < |env.opcodes|
        invariant 0 <= i <= |env.opcodes|
        invariant Exec(env.opcodes, START, n) == Exec(env.opcodes[i..], Snapshot(), n)
      {
        assert env.opcodes[i..][1..] == env.opcodes[i + 1..];
        ok := Step(env.opcodes[i], n);
        if !ok {
          return;
        }
        i := i + 1;
      }
      assert Exec(env.opcodes, START, n) == Some(Snapshot());
      PushSource([]);
      ok := stackSlot == 0 && inlineStack == [] && compileStack == [];
    }

    method Children(children: seq<Environment>) returns (ok: bool, programs: seq<Compiled>)
      ensures ok == CompileChildren(children).Some?
      ensures ok ==> CompileChildren(children) == Some(programs)
      decreases children, 0
    {
      ok, programs := true, [];
      if children != [] {
        var compiler := new JavaScriptCompiler();
        var nested, rest;
        ok, nested := compiler.Compile(children[0]);
        if ok {
          ok, rest := Children(children[1..]);
          programs := [Compiled(compiler.source, compiler.decorators, nested)] + rest;
        }
      }
    }
  }

  /** precompile: both compilers in a row.  The template compiles unless its syntax tree is refused, and
      what it compiles to has the intended meaning exactly for plain templates. */
  method Precompile(o: Options, program: Program) returns (ok: bool, compiled: Compiled)
    ensures ok == LegalProgram(o, [], Some(program))
    ensures ok ==> (Observe(compiled) == ProgramMeaning(o, [], program, Intended)
                    <==> PlainProgram(o, [], Some(program)))
  {
    hide *;
    var compiler := new Compiler(o, []);
    ok := compiler.Program(program);
    compiled := Compiled([], [], []);
    if ok {
      CompilerCorrect(o, [], program);
      var machine := new JavaScriptCompiler();
      var done, programs := machine.Compile(Environment(compiler.opcodes, compiler.children));
      compiled := Compiled(machine.source, machine.decorators, programs);
    }
  }

  /** Parameters found later in the source come after those still to be popped. */
  function Before(popped: Option<(seq<Val>, State)>, later: seq<Val>): Option<(seq<Val>, State)> {
    var (params, st) :- popped;
    Some((params + later, st))
  }

  lemma {:induction false} PopKeeps(st: State)
    ensures Pop(st).Some? ==>
              var after := Pop(st).value.1;
              after.lastHelper == st.lastHelper && after.options == st.options
  {
  }

  lemma {:induction false} PopParamsKeep(st: State, n: nat)
    ensures PopParams(st, n).Some? ==>
              var after := PopParams(st, n).value.1;
              after.lastHelper == st.lastHelper && after.options == st.options
    decreases n
  {
    hide Pop;
    if n > 0 && Pop(st).Some? {
      PopKeeps(st);
      PopParamsKeep(Pop(st).value.1, n - 1);
    }
  }

  lemma {:induction false} SetupKeeps(st: State, name: string, n: nat)
    requires SetupParams(st, name, n).Some?
    ensures var after := SetupParams(st, name, n).value.2;
            after.lastHelper == st.lastHelper && after.options == st.options
  {
    hide Pop;
    PopKeeps(st);
    var st1 := Pop(st).value.1;
    PopKeeps(st1);
    var st2 := Pop(st1).value.1;
    PopKeeps(st2);
    PopParamsKeep(Pop(st2).value.1, n);
  }

  lemma {:induction false} FlushInlineKeeps(st: State)
    ensures var after := FlushInline(st);
            after.lastHelper == st.lastHelper && after.options == st.options
  {
    hide FlushFrom;
    FlushKeeps(st.(inlineStack := []), st.inlineStack);
  }

  lemma {:induction false} FlushKeeps(st: State, items: seq<Item>)
    ensures var after := FlushFrom(st, items);
            after.lastHelper == st.lastHelper && after.options == st.options
    decreases |items|
  {
    if items != [] {
      FlushKeeps(FlushItem(st, items[0]), items[1..]);
    }
  }
}
