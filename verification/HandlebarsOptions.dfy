/** What a helper, a block or a partial of a compiled template is handed in `options`: which of the nested
    programs it gets as `fn` and which as `inverse`, its name and its hash. */
module HandlebarsOptions {
  import opened Wrappers
  import opened HandlebarsCompiler
  import opened HandlebarsMachine
  import opened HandlebarsMeaning
  import opened HandlebarsPrograms

  /** `val` names the one of the nested programs that means what `program` means. */
  predicate Names(o: Options, scopes: Scopes, program: Program, val: Val, nested: seq<Meaning>) {
    val.VProgram? && val.guid < |nested| && nested[val.guid] == ProgramMeaning(o, scopes, program, INITIAL)
  }

  /** `fn` is the program written first and `inverse` the one after it; one that is missing beside the other
      does nothing, and neither is set where none is written. */
  predicate Programs(o: Options, scopes: Scopes, program: Option<Program>, inverse: Option<Program>, options: Val,
                     nested: seq<Meaning>) {
    && options.VOptions?
    && (program.Some? ==> Names(o, scopes, program.value, options.fn, nested))
    && (inverse.Some? ==> Names(o, scopes, inverse.value, options.inverse, nested))
    && (program.None? && inverse.Some? ==> options.fn == VNoop)
    && (program.Some? && inverse.None? ==> options.inverse == VNoop)
    && (program.None? && inverse.None? ==> options.fn == VNull && options.inverse == VNull)
  }

  /** No hash is an empty object, or nothing at all for a partial. */
  predicate HashOf(o: Options, scopes: Scopes, hash: Hash, partial: bool, options: Val) {
    && options.VOptions?
    && (hash.Hash? ==> options.hash == HashVal(o, scopes, hash, partial))
    && (hash.NoHash? ==> options.hash == if partial then VLiteral("undefined") else VHash(map[]))
  }

  predicate Named(options: Val, name: string) {
    options.VOptions? && options.name == name
  }

  /** The call of a helper, which is known or looked up with the path as the alternative. */
  predicate CallsHelper(o: Options, scopes: Scopes, call: Call, program: Option<Program>, inverse: Option<Program>,
                        val: Val, nested: seq<Meaning>) {
    var path := HeadOf(call);
    && (val.VKnownHelper? || val.VHelper?)
    && (val.VKnownHelper? <==> path.parts != [] && path.parts[0] in o.knownHelpers)
    && (val.VKnownHelper? ==> val.name == path.parts[0] && Named(val.options, path.parts[0]))
    && (val.VHelper? ==> val.original == path.original && Named(val.options, path.original))
    && (val.VHelper? ==> val.nonHelper == PathVal(scopes, path, true))
    && |val.params| == |call.params|
    && (forall i :: 0 <= i < |call.params| ==> val.params[i] == ExprVal(o, scopes, call.params[i]))
    && HashOf(o, scopes, call.hash, false, val.options)
    && Programs(o, scopes, program, inverse, val.options, nested)
  }

  /** The call of a name that may or may not be a helper. */
  predicate CallsEither(o: Options, scopes: Scopes, path: PathExpr, program: Option<Program>, inverse: Option<Program>,
                        val: Val, nested: seq<Meaning>) {
    && path.parts != [] && val.VAmbiguous? && val.name == path.parts[0]
    && val.nonHelper == PathVal(scopes, path, false)
    && Named(val.options, path.parts[0]) && HashOf(o, scopes, NoHash, false, val.options)
    && Programs(o, scopes, program, inverse, val.options, nested)
  }

  /** A block whose head is no helper: the value of the head decides what to do with the programs. */
  predicate CallsMissing(o: Options, scopes: Scopes, name: string, program: Option<Program>, inverse: Option<Program>,
                         val: Val, target: Val, nested: seq<Meaning>) {
    && val.VBlockHelperMissing? && val.target == target
    && Named(val.options, name) && HashOf(o, scopes, NoHash, false, val.options)
    && Programs(o, scopes, program, inverse, val.options, nested)
  }

  predicate BlockWritten(o: Options, scopes: Scopes, call: Call, program: Option<Program>, inverse: Option<Program>,
                         lines: seq<Line>, nested: seq<Meaning>) {
    var path := HeadOf(call);
    match ClassifySexpr(o, scopes, path, Definite(call))
    case Helper =>
      lines != [] && lines[0].LAppend? && CallsHelper(o, scopes, call, program, inverse, lines[0].val, nested)
    case Simple =>
      && lines != [] && lines[0].LAppend?
      && CallsMissing(o, scopes, path.original, program, inverse, lines[0].val,
                      VLambda(PathVal(scopes, path, false)), nested)
    case Ambiguous =>
      && |lines| >= 3 && lines[0].LAssign? && lines[1].LUnlessHelper?
      && CallsEither(o, scopes, path, program, inverse, lines[0].val, nested)
      && lines[1].helper == path.parts[0] && lines[1].target == VStack(lines[0].slot)
      && (program.Some? || inverse.Some? ==>
            CallsMissing(o, scopes, path.parts[0], program, inverse, lines[1].call, VStack(lines[0].slot), nested))
      && lines[2] == LAppend(VStack(lines[0].slot))
  }

  predicate PartialWritten(o: Options, scopes: Scopes, name: PartialName, params: seq<Expr>, hash: Hash,
                           program: Option<Program>, indent: string, lines: seq<Line>, nested: seq<Meaning>) {
    && lines != [] && lines[0].LAppend? && lines[0].val.VPartial? && lines[0].val.indent == indent
    && Named(lines[0].val.options, if name.StaticName? then name.original else "")
    && HashOf(o, scopes, hash, true, lines[0].val.options)
    && Programs(o, scopes, program, None, lines[0].val.options, nested)
    && (name.StaticName? ==> lines[0].val.target == VString(name.original))
    && (name.DynamicName? && params != [] ==> lines[0].val.target == ExprVal(o, scopes, SubExpression(name.call)))
    && (params != [] ==> lines[0].val.context == ExprVal(o, scopes, params[0]))
  }

  predicate MustacheWritten(o: Options, scopes: Scopes, call: Call, escaped: bool, lines: seq<Line>) {
    && lines != []
    && (if escaped && !o.noEscape then lines[0].LAppendEscaped? else lines[0].LAppend?)
    && match ClassifySexpr(o, scopes, HeadOf(call), Definite(call))
       case Helper => CallsHelper(o, scopes, call, None, None, lines[0].val, [])
       case Simple => lines[0].val == VLambda(PathVal(scopes, HeadOf(call), false))
       case Ambiguous => CallsEither(o, scopes, HeadOf(call), None, None, lines[0].val, [])
  }

  /** What a statement writes: `lines` starts with it. */
  predicate Written(o: Options, scopes: Scopes, s: Statement, lines: seq<Line>, nested: seq<Meaning>) {
    match s
    case Mustache(call, escaped) => MustacheWritten(o, scopes, call, escaped, lines)
    case Block(call, program, inverse) => BlockWritten(o, scopes, call, program, inverse, lines, nested)
    case DecoratorBlock(_, _) => true
    case Partial(name, params, hash, program, indent) =>
      PartialWritten(o, scopes, name, params, hash, program, indent, lines, nested)
    case Content(value) => Letters(value) <= lines
    case Comment => true
  }

  /** What a decorator block registers. */
  predicate Decorates(o: Options, scopes: Scopes, s: Statement, val: Val, nested: seq<Meaning>)
    requires s.DecoratorBlock?
  {
    var name := HeadOf(s.call).original;
    && val.VKnownHelper? && val.name == name && Named(val.options, name)
    && |val.params| == |s.call.params|
    && (forall i :: 0 <= i < |s.call.params| ==> val.params[i] == ExprVal(o, scopes, s.call.params[i]))
    && HashOf(o, scopes, s.call.hash, false, val.options)
    && Programs(o, scopes, s.program, None, val.options, nested)
  }

  // ---------------------------------------------------------------------------
  // One statement.

  /** The nested programs from `next` on are those of the statement. */
  predicate NestedAt(nested: seq<Meaning>, next: nat, own: seq<Meaning>) {
    next + |own| <= |nested| && nested[next..next + |own|] == own
  }

  lemma {:induction false} ProgramsAt(o: Options, scopes: Scopes, program: Option<Program>, inverse: Option<Program>,
                                      name: string, hash: Val, next: nat, nested: seq<Meaning>)
    requires NestedAt(nested, next,
                      ChildMeaning(o, scopes, program, INITIAL) + ChildMeaning(o, scopes, inverse, INITIAL))
    ensures var options := MakeOptions(name, hash, GuidVal(Guid(program, next)),
                                       GuidVal(Guid(inverse, next + ProgramCount(program))));
            options.VOptions? && options.name == name && options.hash == hash
            && Programs(o, scopes, program, inverse, options, nested)
  {
    hide ProgramMeaning;
    var first, second := ChildMeaning(o, scopes, program, INITIAL), ChildMeaning(o, scopes, inverse, INITIAL);
    var own := first + second;
    assert program.Some? ==> nested[next] == nested[next..next + |own|][0] == own[0];
    assert inverse.Some? ==> nested[next + |first|] == nested[next..next + |own|][|first|] == own[|first|];
  }

  lemma {:induction false} ParamsAreTheirValues(o: Options, scopes: Scopes, params: seq<Expr>)
    ensures forall i :: 0 <= i < |params| ==> ParamVals(o, scopes, params)[i] == ExprVal(o, scopes, params[i])
  {
    hide ParamVals, ExprVal;
    forall i | 0 <= i < |params| ensures ParamVals(o, scopes, params)[i] == ExprVal(o, scopes, params[i]) {
      ParamsInOrder(o, scopes, params, i);
    }
  }

  lemma {:induction false} HelperCalled(o: Options, scopes: Scopes, call: Call, program: Option<Program>,
                                        inverse: Option<Program>, next: nat, nested: seq<Meaning>)
    requires NestedAt(nested, next,
                      ChildMeaning(o, scopes, program, INITIAL) + ChildMeaning(o, scopes, inverse, INITIAL))
    ensures CallsHelper(o, scopes, call, program, inverse,
                        HelperVal(o, scopes, call, GuidVal(Guid(program, next)),
                                  GuidVal(Guid(inverse, next + ProgramCount(program)))), nested)
  {
    hide ParamVals, ExprVal, PathVal, ChildMeaning, MakeOptions, Programs, GuidVal, Guid, HeadOf, SimpleId;
    var path := HeadOf(call);
    ParamsAreTheirValues(o, scopes, call.params);
    ProgramsAt(o, scopes, program, inverse, if Known(o, path) then path.parts[0] else path.original,
               HashVal(o, scopes, call.hash, false), next, nested);
  }

  /** A sub-expression is called without programs. */
  lemma {:induction false} SubExpressionCalled(o: Options, scopes: Scopes, call: Call)
    requires ClassifySexpr(o, scopes, HeadOf(call), true) == Helper
    ensures CallsHelper(o, scopes, call, None, None, ExprVal(o, scopes, SubExpression(call)), [])
  {
    hide ClassifySexpr, CallsHelper, HelperVal, HeadOf;
    HelperCalled(o, scopes, call, None, None, 0, []);
  }

  lemma {:induction false} ClassifiedEither(o: Options, scopes: Scopes, path: PathExpr, definite: bool)
    requires ClassifySexpr(o, scopes, path, definite) == Ambiguous
    ensures path.parts != []
  {
  }

  lemma {:induction false} EitherCalled(o: Options, scopes: Scopes, path: PathExpr, program: Option<Program>,
                                        inverse: Option<Program>, next: nat, nested: seq<Meaning>)
    requires path.parts != []
    requires NestedAt(nested, next,
                      ChildMeaning(o, scopes, program, INITIAL) + ChildMeaning(o, scopes, inverse, INITIAL))
    ensures var p, i := GuidVal(Guid(program, next)), GuidVal(Guid(inverse, next + ProgramCount(program)));
            && CallsEither(o, scopes, path, program, inverse, AmbiguousVal(scopes, path, p, i), nested)
            && CallsMissing(o, scopes, path.parts[0], program, inverse,
                            VBlockHelperMissing(VStack(1), AmbiguousOptions(path, p, i)), VStack(1), nested)
  {
    hide PathVal, ChildMeaning, MakeOptions, Programs, GuidVal, Guid;
    ProgramsAt(o, scopes, program, inverse, path.parts[0], VHash(map[]), next, nested);
  }

  lemma {:induction false} BlockIsWritten(o: Options, scopes: Scopes, call: Call, program: Option<Program>,
                                          inverse: Option<Program>, next: nat, r: Register, rest: seq<Line>,
                                          nested: seq<Meaning>)
    requires NestedAt(nested, next,
                      ChildMeaning(o, scopes, program, INITIAL) + ChildMeaning(o, scopes, inverse, INITIAL))
    ensures var p, i := GuidVal(Guid(program, next)), GuidVal(Guid(inverse, next + ProgramCount(program)));
            BlockWritten(o, scopes, call, program, inverse,
                         Explode(BlockLines(o, scopes, call, p, i, r)) + rest, nested)
  {
    hide ChildMeaning, ClassifySexpr, CallsHelper, CallsEither, CallsMissing, HelperVal, AmbiguousVal,
         AmbiguousOptions, MakeOptions, PathVal, Explode, HeadOf;
    var path := HeadOf(call);
    var p, i := GuidVal(Guid(program, next)), GuidVal(Guid(inverse, next + ProgramCount(program)));
    var lines := BlockLines(o, scopes, call, p, i, r);
    NoContentExplodes(lines);
    match ClassifySexpr(o, scopes, path, Definite(call))
    case Helper => HelperCalled(o, scopes, call, program, inverse, next, nested);
    case Simple => MissingCalled(o, scopes, path, program, inverse, next, nested);
    case Ambiguous =>
      ClassifiedEither(o, scopes, path, Definite(call));
      EitherCalled(o, scopes, path, program, inverse, next, nested);
  }

  lemma {:induction false} MissingCalled(o: Options, scopes: Scopes, path: PathExpr, program: Option<Program>,
                                         inverse: Option<Program>, next: nat, nested: seq<Meaning>)
    requires NestedAt(nested, next,
                      ChildMeaning(o, scopes, program, INITIAL) + ChildMeaning(o, scopes, inverse, INITIAL))
    ensures var p, i := GuidVal(Guid(program, next)), GuidVal(Guid(inverse, next + ProgramCount(program)));
            CallsMissing(o, scopes, path.original, program, inverse,
                         VBlockHelperMissing(VLambda(PathVal(scopes, path, false)),
                                             MakeOptions(path.original, VHash(map[]), p, i)),
                         VLambda(PathVal(scopes, path, false)), nested)
  {
    hide PathVal, ChildMeaning, MakeOptions, Programs, GuidVal, Guid;
    ProgramsAt(o, scopes, program, inverse, path.original, VHash(map[]), next, nested);
  }

  lemma {:induction false} NoContentExplodes(lines: seq<Line>)
    requires forall i :: 0 <= i < |lines| ==> !lines[i].LContent?
    ensures Explode(lines) == lines
  {
    if lines != [] {
      NoContentExplodes(lines[1..]);
      assert lines == [lines[0]] + lines[1..];
    }
  }

  lemma {:induction false} PartialIsWritten(o: Options, scopes: Scopes, name: PartialName, params: seq<Expr>,
                                            hash: Hash, program: Option<Program>, indent: string, next: nat,
                                            r: Register, rest: seq<Line>, nested: seq<Meaning>)
    requires NestedAt(nested, next, ChildMeaning(o, scopes, program, INITIAL))
    ensures PartialWritten(o, scopes, name, params, hash, program, indent,
                           Explode([LAppend(PartialVal(o, scopes, name, params, hash, GuidVal(Guid(program, next)),
                                                       indent, r))]) + rest, nested)
  {
    hide ChildMeaning, ExprVal, MakeOptions, Programs, GuidVal, Explode;
    ExplodeOne(LAppend(PartialVal(o, scopes, name, params, hash, GuidVal(Guid(program, next)), indent, r)));
    assert ChildMeaning(o, scopes, None, INITIAL) == [] by { NoChild(o, scopes); }
    assert GuidVal(None) == VNull by { NoGuid(); }
    assert ChildMeaning(o, scopes, program, INITIAL) + [] == ChildMeaning(o, scopes, program, INITIAL);
    ProgramsAt(o, scopes, program, None, PartialTitle(name), HashVal(o, scopes, hash, true), next, nested);
  }

  lemma {:induction false} NoChild(o: Options, scopes: Scopes)
    ensures ChildMeaning(o, scopes, None, INITIAL) == []
  {
  }

  lemma {:induction false} NoGuid()
    ensures GuidVal(None) == VNull
  {
  }

  lemma {:induction false} MustacheIsWritten(o: Options, scopes: Scopes, call: Call, escaped: bool, rest: seq<Line>)
    ensures var val := MustacheVal(o, scopes, call);
            MustacheWritten(o, scopes, call, escaped,
                            Explode([if escaped && !o.noEscape then LAppendEscaped(val) else LAppend(val)]) + rest)
  {
    hide ClassifySexpr, CallsHelper, CallsEither, HelperVal, AmbiguousVal, PathVal, Explode, HeadOf;
    var path := HeadOf(call);
    var val := MustacheVal(o, scopes, call);
    ExplodeOne(if escaped && !o.noEscape then LAppendEscaped(val) else LAppend(val));
    match ClassifySexpr(o, scopes, path, Definite(call))
    case Helper => HelperCalled(o, scopes, call, None, None, 0, []);
    case Simple =>
    case Ambiguous =>
      ClassifiedEither(o, scopes, path, Definite(call));
      EitherCalled(o, scopes, path, None, None, 0, []);
  }

  lemma {:induction false} StatementIsWritten(o: Options, scopes: Scopes, s: Statement, next: nat, r: Register,
                                              rest: seq<Line>, nested: seq<Meaning>)
    requires NestedAt(nested, next, StatementNested(o, scopes, s, INITIAL))
    ensures Written(o, scopes, s, Explode(StatementLines(o, scopes, s, next, r)) + rest, nested)
  {
    hide ChildMeaning, MustacheVal, BlockLines, PartialVal, MustacheWritten, BlockWritten, PartialWritten, Explode,
         GuidVal, Guid;
    match s
    case Mustache(call, escaped) => MustacheIsWritten(o, scopes, call, escaped, rest);
    case Block(call, program, inverse) =>
      BlockIsWritten(o, scopes, call, program, inverse, next, r, rest, nested);
    case DecoratorBlock(_, _) =>
    case Partial(name, params, hash, program, indent) =>
      PartialIsWritten(o, scopes, name, params, hash, program, indent, next, r, rest, nested);
    case Content(value) => ExplodeOne(LContent(value));
    case Comment =>
  }

  lemma {:induction false} DecoratorRegistered(o: Options, scopes: Scopes, s: Statement, next: nat,
                                               nested: seq<Meaning>)
    requires s.DecoratorBlock?
    requires NestedAt(nested, next, StatementNested(o, scopes, s, INITIAL))
    ensures var decorators := StatementDecorators(o, scopes, s, next);
            |decorators| == 1 && Decorates(o, scopes, s, decorators[0], nested)
  {
    hide ChildMeaning, ParamVals, ExprVal, MakeOptions, Programs, GuidVal, HeadOf;
    var name := HeadOf(s.call).original;
    assert ChildMeaning(o, scopes, None, INITIAL) == [] by { NoChild(o, scopes); }
    assert GuidVal(None) == VNull by { NoGuid(); }
    assert ChildMeaning(o, scopes, s.program, INITIAL) + [] == ChildMeaning(o, scopes, s.program, INITIAL);
    ParamsAreTheirValues(o, scopes, s.call.params);
    ProgramsAt(o, scopes, s.program, None, name, HashVal(o, scopes, s.call.hash, false), next, nested);
  }

  // ---------------------------------------------------------------------------
  // The statements of a body.

  /** The programs nested in the first `k` statements. */
  function KidsBefore(body: seq<Statement>, k: nat): nat
    requires k <= |body|
  {
    if k == 0 then 0 else KidCount(body[0]) + KidsBefore(body[1..], k - 1)
  }

  lemma {:induction false} NestedCounted(o: Options, scopes: Scopes, s: Statement)
    ensures |StatementNested(o, scopes, s, INITIAL)| == KidCount(s)
  {
    hide ProgramMeaning;
  }

  lemma {:induction false} NestedOfBody(o: Options, scopes: Scopes, body: seq<Statement>, k: nat)
    requires k < |body|
    ensures NestedAt(BodyNested(o, scopes, body, INITIAL), KidsBefore(body, k),
                     StatementNested(o, scopes, body[k], INITIAL))
  {
    hide StatementNested, KidCount;
    NestedCounted(o, scopes, body[0]);
    var first := StatementNested(o, scopes, body[0], INITIAL);
    var rest := BodyNested(o, scopes, body[1..], INITIAL);
    if k == 0 {
      assert (first + rest)[..|first|] == first;
    } else {
      NestedOfBody(o, scopes, body[1..], k - 1);
      var own, at := StatementNested(o, scopes, body[k], INITIAL), KidsBefore(body[1..], k - 1);
      assert body[1..][k - 1] == body[k];
      assert (first + rest)[|first| + at..|first| + at + |own|] == rest[at..at + |own|];
    }
  }

  lemma {:induction false} LinesOfBody(o: Options, scopes: Scopes, body: seq<Statement>, k: nat, next: nat,
                                       r: Register)
    returns (s: Register, after: seq<Line>)
    requires k < |body|
    ensures BodyLines(o, scopes, body, next, r)
            == BodyLines(o, scopes, body[..k], next, r)
               + StatementLines(o, scopes, body[k], next + KidsBefore(body, k), s) + after
  {
    hide StatementLines, KidCount, NextRegister;
    if k == 0 {
      var n, r' := next + KidCount(body[0]), NextRegister(o, scopes, body[0], next, r);
      s, after := r, BodyLines(o, scopes, body[1..], n, r');
      assert body[..0] == [];
      assert BodyLines(o, scopes, body[..0], next, r) == [];
    } else {
      var first := StatementLines(o, scopes, body[0], next, r);
      var n, r' := next + KidCount(body[0]), NextRegister(o, scopes, body[0], next, r);
      s, after := LinesOfBody(o, scopes, body[1..], k - 1, n, r');
      assert body[..k][0] == body[0] && body[..k][1..] == body[1..][..k - 1];
      var own := StatementLines(o, scopes, body[k], next + KidsBefore(body, k), s);
      var before := BodyLines(o, scopes, body[1..][..k - 1], n, r');
      assert BodyLines(o, scopes, body[..k], next, r) == first + before;
      assert first + (before + own + after) == first + before + own + after;
    }
  }

  lemma {:induction false} DecoratorsOfBody(o: Options, scopes: Scopes, body: seq<Statement>, k: nat, next: nat)
    returns (after: seq<Val>)
    requires k < |body|
    ensures BodyDecorators(o, scopes, body, next)
            == BodyDecorators(o, scopes, body[..k], next)
               + StatementDecorators(o, scopes, body[k], next + KidsBefore(body, k)) + after
  {
    hide StatementDecorators, KidCount;
    if k == 0 {
      after := BodyDecorators(o, scopes, body[1..], next + KidCount(body[0]));
      assert body[..0] == [];
      assert BodyDecorators(o, scopes, body[..0], next) == [];
    } else {
      var first := StatementDecorators(o, scopes, body[0], next);
      var n := next + KidCount(body[0]);
      after := DecoratorsOfBody(o, scopes, body[1..], k - 1, n);
      assert body[..k][0] == body[0] && body[..k][1..] == body[1..][..k - 1];
      var own := StatementDecorators(o, scopes, body[k], next + KidsBefore(body, k));
      var before := BodyDecorators(o, scopes, body[1..][..k - 1], n);
      assert BodyDecorators(o, scopes, body[..k], next) == first + before;
      assert first + (before + own + after) == first + before + own + after;
    }
  }

  // ---------------------------------------------------------------------------
  // Whole templates.

  /** In every compiled template each statement writes, after the lines of the statements before it, a call that is
      handed the program written in it as `fn` and the one after its else as `inverse`. */
  lemma {:induction false} EveryStatementWritten(o: Options, scopes: Scopes, program: Program, k: nat)
    requires LegalProgram(o, scopes, Some(program)) && k < |program.body|
    ensures CompileEnv(Compile(o, scopes, program)).Some?
    ensures var meaning := Observe(CompileEnv(Compile(o, scopes, program)).value);
            var before := ProgramMeaning(o, scopes, program.(body := program.body[..k]), INITIAL).lines;
            && before <= meaning.lines
            && Written(o, [program.blockParams] + scopes, program.body[k], meaning.lines[|before|..], meaning.nested)
  {
    hide LegalProgram, Compile, CompileEnv, Observe, BodyNested, BodyLines, BodyDecorators, Explode, Written,
         StatementLines, StatementNested, KidsBefore, NestedAt;
    ProgramRuns(o, scopes, program);
    var inner, body := [program.blockParams] + scopes, program.body;
    var nested := BodyNested(o, inner, body, INITIAL);
    NestedOfBody(o, inner, body, k);
    var s, after := LinesOfBody(o, inner, body, k, 0, INITIAL);
    var before := BodyLines(o, inner, body[..k], 0, INITIAL);
    var own := StatementLines(o, inner, body[k], KidsBefore(body, k), s);
    ExplodeJoin(before + own, after);
    ExplodeJoin(before, own);
    var lines := Explode(before) + Explode(own) + Explode(after);
    assert lines[|Explode(before)|..] == Explode(own) + Explode(after);
    StatementIsWritten(o, inner, body[k], KidsBefore(body, k), s, Explode(after), nested);
  }

  /** Each decorator block registers its decorator, which is handed the program in it. */
  lemma {:induction false} EveryDecoratorRegistered(o: Options, scopes: Scopes, program: Program, k: nat)
    requires LegalProgram(o, scopes, Some(program)) && k < |program.body| && program.body[k].DecoratorBlock?
    ensures CompileEnv(Compile(o, scopes, program)).Some?
    ensures var meaning := Observe(CompileEnv(Compile(o, scopes, program)).value);
            var before := ProgramMeaning(o, scopes, program.(body := program.body[..k]), INITIAL).decorators;
            && before < meaning.decorators
            && Decorates(o, [program.blockParams] + scopes, program.body[k], meaning.decorators[|before|],
                         meaning.nested)
  {
    hide LegalProgram, Compile, CompileEnv, Observe, BodyNested, BodyLines, BodyDecorators, Explode, Decorates,
         StatementDecorators, StatementNested, KidsBefore, NestedAt;
    ProgramRuns(o, scopes, program);
    var inner, body := [program.blockParams] + scopes, program.body;
    NestedOfBody(o, inner, body, k);
    var after := DecoratorsOfBody(o, inner, body, k, 0);
    DecoratorRegistered(o, inner, body[k], KidsBefore(body, k), BodyNested(o, inner, body, INITIAL));
  }
}
