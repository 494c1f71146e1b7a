/** The first half of the template compiler in src/main/webapp/api/lib/handlebars-4.0.5.js:
    an abstract syntax tree is turned into opcodes for a stack machine. */
module HandlebarsCompiler {
  import opened Wrappers

  datatype PathExpr = PathExpr(original: string, parts: seq<string>, depth: nat, data: bool)

  /** What names a call: a path, or a literal that stands for a path. */
  datatype Head = HeadPath(path: PathExpr) | HeadLiteral(original: string)

  datatype Expr =
    | PathExpression(path: PathExpr)
    | StringLiteral(value: string)
    | Literal(text: string)  // number, boolean, undefined and null
    | SubExpression(call: Call)

  datatype Pair = Pair(key: string, value: Expr)

  datatype Hash = NoHash | Hash(pairs: seq<Pair>)

  datatype Call = Call(head: Head, params: seq<Expr>, hash: Hash)

  datatype Program = Program(body: seq<Statement>, blockParams: Option<seq<string>>)

  datatype Statement =
    | Mustache(call: Call, escaped: bool)
    | Block(call: Call, program: Option<Program>, inverse: Option<Program>)
    | DecoratorBlock(call: Call, program: Option<Program>)
    | Partial(name: PartialName, params: seq<Expr>, hash: Hash, program: Option<Program>, indent: string)
    | Content(value: string)
    | Comment

  datatype PartialName = StaticName(original: string) | DynamicName(call: Call)

  /** The compile options used here; stringParams, trackIds, compat, strict, assumeObjects and
      preventIndent keep their default, which is off. */
  datatype Options = Options(knownHelpers: set<string>, knownHelpersOnly: bool, explicitPartialContext: bool,
                             noEscape: bool)

  datatype Opcode =
    | GetContext(depth: nat)
    | PushContext
    | LookupBlockParam(scope: nat, index: nat, parts: seq<string>)
    | LookupData(depth: nat, parts: seq<string>)
    | LookupOnContext(parts: seq<string>, falsy: bool)
    | PushString(value: string)
    | PushLiteral(text: string)
    | PushHash
    | AssignToHash(key: string)
    | PopHash
    | EmptyHash(omitEmpty: bool)
    | PushProgram(guid: Option<nat>)
    | InvokeKnownHelper(paramSize: nat, name: string)
    | InvokeHelper(paramSize: nat, original: string, simpleId: bool)
    | InvokeAmbiguous(name: string, isBlock: bool)
    | ResolvePossibleLambda
    | BlockValue(name: string)
    | AmbiguousBlockValue
    | Append
    | AppendEscaped
    | AppendContent(content: string)
    | RegisterDecorator(paramSize: nat, name: string)
    | InvokePartial(isDynamic: bool, name: string, indent: string)

  /** One compiled program with the programs nested in it, in the order of their guids. */
  datatype Environment = Environment(opcodes: seq<Opcode>, children: seq<Environment>)

  type Scopes = seq<Option<seq<string>>>

  // ---------------------------------------------------------------------------
  // Classification.

  predicate WordChar(c: char) {
    'a' <= c <= 'z' || 'A' <= c <= 'Z' || '0' <= c <= '9' || c == '_'
  }

  /** The path starts with a dot or holds the word `this`. */
  predicate ScopedId(original: string) {
    || (original != "" && original[0] == '.')
    || HasThis(original)
  }

  /** By the numbers of the characters: digits, capitals, the underscore, small letters. */
  lemma {:induction false} WordCharsExactly(c: char)
    ensures WordChar(c) <==> var n := c as int; 48 <= n <= 57 || 65 <= n <= 90 || n == 95 || 97 <= n <= 122
  {
    assert 'a' as int == 97 && 'z' as int == 122 && 'A' as int == 65 && 'Z' as int == 90;
    assert '0' as int == 48 && '9' as int == 57 && '_' as int == 95;
  }

  predicate HasThis(s: string) {
    && |s| >= 4
    && ((s[..4] == "this" && (|s| == 4 || !WordChar(s[4]))) || HasThis(s[1..]))
  }

  /** The word `this` ends a word, from `i` on. */
  predicate ThisAt(s: string, i: nat) {
    i + 4 <= |s| && s[i..i + 4] == "this" && (i + 4 == |s| || !WordChar(s[i + 4]))
  }

  lemma {:induction false} ThisExactly(s: string)
    ensures HasThis(s) <==> exists i: nat :: ThisAt(s, i)
  {
    if |s| >= 4 {
      assert s[0..4] == s[..4];
      assert ThisAt(s, 0) <==> s[..4] == "this" && (|s| == 4 || !WordChar(s[4]));
      ThisExactly(s[1..]);
      forall i: nat ensures ThisAt(s, i + 1) <==> ThisAt(s[1..], i) {
        if i + 5 <= |s| {
          assert s[i + 1..i + 5] == s[1..][i..i + 4];
        }
      }
      if i: nat :| ThisAt(s, i) {
        assert i > 0 ==> ThisAt(s[1..], i - 1);
      }
    }
  }

  predicate SimpleId(path: PathExpr) {
    |path.parts| == 1 && !ScopedId(path.original) && path.depth == 0
  }

  function HeadOf(call: Call): PathExpr {
    match call.head
    case HeadPath(path) => path
    case HeadLiteral(original) => PathExpr(original, [original], 0, false)
  }

  function IndexOf(names: seq<string>, name: string): (i: nat)
    ensures i <= |names|
    ensures i < |names| ==> names[i] == name
    ensures forall j :: 0 <= j < i ==> names[j] != name
  {
    if names == [] || names[0] == name then 0 else 1 + IndexOf(names[1..], name)
  }

  function BlockParamIndex(scopes: Scopes, name: string): Option<(nat, nat)> {
    if scopes == [] then None
    else if scopes[0].Some? && IndexOf(scopes[0].value, name) < |scopes[0].value| then
      Some((0, IndexOf(scopes[0].value, name)))
    else
      var (scope, index) :- BlockParamIndex(scopes[1..], name);
      Some((scope + 1, index))
  }

  /** `name` is bound in this scope. */
  predicate Binds(scope: Option<seq<string>>, name: string) {
    scope.Some? && name in scope.value
  }

  /** The innermost scope that binds a name wins, and in it the first parameter of that name. */
  lemma {:induction false} InnermostWins(scopes: Scopes, name: string)
    ensures BlockParamIndex(scopes, name).None? <==> forall k :: 0 <= k < |scopes| ==> !Binds(scopes[k], name)
    ensures BlockParamIndex(scopes, name).Some? ==>
              var (scope, index) := BlockParamIndex(scopes, name).value;
              && scope < |scopes| && scopes[scope].Some?
              && (forall k :: 0 <= k < scope ==> !Binds(scopes[k], name))
              && index < |scopes[scope].value| && scopes[scope].value[index] == name
              && (forall k :: 0 <= k < index ==> scopes[scope].value[k] != name)
  {
    if scopes != [] {
      InnermostWins(scopes[1..], name);
      assert Binds(scopes[0], name) <==> scopes[0].Some? && IndexOf(scopes[0].value, name) < |scopes[0].value|;
      assert forall k :: 1 <= k < |scopes| ==> scopes[k] == scopes[1..][k - 1];
    }
  }

  datatype Kind = Helper | Ambiguous | Simple

  /** `definite` says that the node is a sub-expression, or has parameters or a hash. */
  function ClassifySexpr(o: Options, scopes: Scopes, path: PathExpr, definite: bool): Kind {
    var isSimple := SimpleId(path);
    var isBlockParam := isSimple && BlockParamIndex(scopes, path.parts[0]).Some?;
    if isBlockParam then Simple
    else if definite then Helper
    else if !isSimple then Simple
    else if path.parts[0] in o.knownHelpers then Helper
    else if o.knownHelpersOnly then Simple
    else Ambiguous
  }

  ghost predicate Unscoped(original: string) {
    (original == "" || original[0] != '.') && !exists i: nat :: ThisAt(original, i)
  }

  /** A name of a single segment that is neither a parent path nor scoped; a literal is one such name. */
  ghost predicate Bare(head: Head) {
    match head
    case HeadPath(path) => |path.parts| == 1 && path.depth == 0 && Unscoped(path.original)
    case HeadLiteral(original) => Unscoped(original)
  }

  function NameOf(head: Head): string
    requires head.HeadPath? ==> head.path.parts != []
  {
    if head.HeadPath? then head.path.parts[0] else head.original
  }

  /** Block parameters are never helpers; arguments make a helper of anything else, and a bare name without arguments
      is one if it is known.  What remains of the bare names is decided at run time, unless only known helpers are
      allowed. */
  lemma {:induction false} ClassifiedExactly(o: Options, scopes: Scopes, call: Call, nested: bool)
    ensures var head := call.head;
            var bound := Bare(head) && exists k :: 0 <= k < |scopes| && Binds(scopes[k], NameOf(head));
            var arguments := nested || |call.params| > 0 || call.hash.Hash?;
            var kind := ClassifySexpr(o, scopes, HeadOf(call), nested || Definite(call));
            && (kind == Helper <==> !bound && (arguments || (Bare(head) && NameOf(head) in o.knownHelpers)))
            && (kind == Ambiguous <==>
                  !bound && !arguments && Bare(head) && NameOf(head) !in o.knownHelpers && !o.knownHelpersOnly)
  {
    var path := HeadOf(call);
    ThisExactly(path.original);
    if path.parts != [] {
      InnermostWins(scopes, path.parts[0]);
    }
  }

  function Definite(call: Call): bool {
    call.params != [] || call.hash.Hash?
  }

  predicate Known(o: Options, path: PathExpr) {
    path.parts != [] && path.parts[0] in o.knownHelpers
  }

  // ---------------------------------------------------------------------------
  // The opcodes of expressions.

  function PathOps(scopes: Scopes, path: PathExpr, falsy: bool): seq<Opcode> {
    [GetContext(path.depth),
     if path.parts == [] then PushContext
     else
       var blockParam := if path.depth == 0 && !ScopedId(path.original)
                         then BlockParamIndex(scopes, path.parts[0]) else None;
       if blockParam.Some? then LookupBlockParam(blockParam.value.0, blockParam.value.1, path.parts)
       else if path.parts[0] == "" then PushContext
       else if path.data then LookupData(path.depth, path.parts)
       else LookupOnContext(path.parts, falsy)]
  }

  function ExprOps(o: Options, scopes: Scopes, e: Expr): seq<Opcode>
    decreases e, 1
  {
    match e
    case PathExpression(path) => PathOps(scopes, path, false)
    case StringLiteral(value) => [PushString(value)]
    case Literal(text) => [PushLiteral(text)]
    case SubExpression(call) =>
      if ClassifySexpr(o, scopes, HeadOf(call), true) == Simple then SimpleOps(scopes, HeadOf(call))
      else HelperOps(o, scopes, call, None, None)
  }

  function SimpleOps(scopes: Scopes, path: PathExpr): seq<Opcode> {
    PathOps(scopes, path, false) + [ResolvePossibleLambda]
  }

  function ParamsOps(o: Options, scopes: Scopes, params: seq<Expr>): seq<Opcode>
    decreases params, 0
  {
    if params == [] then [] else ExprOps(o, scopes, params[0]) + ParamsOps(o, scopes, params[1..])
  }

  function PairsOps(o: Options, scopes: Scopes, pairs: seq<Pair>): seq<Opcode>
    decreases pairs, 0
  {
    if pairs == [] then [] else ExprOps(o, scopes, pairs[0].value) + PairsOps(o, scopes, pairs[1..])
  }

  /** `while (i--)`: the keys are assigned last to first. */
  function AssignOps(pairs: seq<Pair>): seq<Opcode> {
    if pairs == [] then [] else AssignOps(pairs[1..]) + [AssignToHash(pairs[0].key)]
  }

  function HashOps(o: Options, scopes: Scopes, hash: Hash, omitEmpty: bool): seq<Opcode>
    decreases hash, 1
  {
    match hash
    case NoHash => [EmptyHash(omitEmpty)]
    case Hash(pairs) => [PushHash] + PairsOps(o, scopes, pairs) + AssignOps(pairs) + [PopHash]
  }

  function InvokeOps(o: Options, scopes: Scopes, call: Call): seq<Opcode> {
    var path := HeadOf(call);
    if Known(o, path) then [InvokeKnownHelper(|call.params|, path.parts[0])]
    else PathOps(scopes, path, true) + [InvokeHelper(|call.params|, path.original, SimpleId(path))]
  }

  function HelperOps(o: Options, scopes: Scopes, call: Call, program: Option<nat>, inverse: Option<nat>): seq<Opcode>
    decreases call, 1
  {
    ParamsOps(o, scopes, call.params) + [PushProgram(program), PushProgram(inverse)]
    + HashOps(o, scopes, call.hash, false) + InvokeOps(o, scopes, call)
  }

  // ---------------------------------------------------------------------------
  // The opcodes of statements, and the programs nested in them.

  /** Opcodes together with the environments of the programs compiled on the way. */
  datatype Code = Code(opcodes: seq<Opcode>, children: seq<Environment>)

  function Join(x: Code, y: Code): Code {
    Code(x.opcodes + y.opcodes, x.children + y.children)
  }

  function Compile(o: Options, scopes: Scopes, program: Program): Environment
    decreases program, 1
  {
    var code := BodyCode(o, [program.blockParams] + scopes, program.body, 0);
    Environment(code.opcodes, code.children)
  }

  /** compileProgram of an optional program: nothing, or one child. */
  function Child(o: Options, scopes: Scopes, program: Option<Program>): (kids: seq<Environment>)
    ensures |kids| == if program.Some? then 1 else 0
    decreases program, 2
  {
    if program.Some? then [Compile(o, scopes, program.value)] else []
  }

  function Guid(program: Option<Program>, next: nat): Option<nat> {
    if program.Some? then Some(next) else None
  }

  function BodyCode(o: Options, scopes: Scopes, body: seq<Statement>, next: nat): Code
    decreases body, 0
  {
    if body == [] then Code([], [])
    else
      var first := StatementCode(o, scopes, body[0], next);
      Join(first, BodyCode(o, scopes, body[1..], next + |first.children|))
  }

  function StatementCode(o: Options, scopes: Scopes, s: Statement, next: nat): Code
    decreases s, 1
  {
    match s
    case Mustache(call, escaped) =>
      Code(MustacheOps(o, scopes, call) + [if escaped && !o.noEscape then AppendEscaped else Append], [])
    case Block(call, program, inverse) =>
      var children := Child(o, scopes, program) + Child(o, scopes, inverse);
      var p, i := Guid(program, next), Guid(inverse, next + |Child(o, scopes, program)|);
      Code(BlockOps(o, scopes, call, p, i) + [Append], children)
    case DecoratorBlock(call, program) =>
      var ops := ParamsOps(o, scopes, call.params) + [PushProgram(Guid(program, next)), PushProgram(None)]
                 + HashOps(o, scopes, call.hash, false)
                 + [RegisterDecorator(|call.params|, HeadOf(call).original)];
      Code(ops, Child(o, scopes, program))
    case Partial(name, params, hash, program, indent) =>
      Code(PartialOps(o, scopes, name, params, hash, Guid(program, next))
           + [InvokePartial(name.DynamicName?, PartialTitle(name), indent), Append],
           Child(o, scopes, program))
    case Content(value) => Code(if value != "" then [AppendContent(value)] else [], [])
    case Comment => Code([], [])
  }

  function PartialOps(o: Options, scopes: Scopes, name: PartialName, params: seq<Expr>, hash: Hash,
                      program: Option<nat>): seq<Opcode> {
    PartialContext(o, params) + NameOps(o, scopes, name)
    + ParamsOps(o, scopes, PartialParams(o, params))
    + [PushProgram(program), PushProgram(None)]
    + HashOps(o, scopes, hash, true)
  }

  function MustacheOps(o: Options, scopes: Scopes, call: Call): seq<Opcode> {
    match ClassifySexpr(o, scopes, HeadOf(call), Definite(call))
    case Simple => SimpleOps(scopes, HeadOf(call))
    case Helper => HelperOps(o, scopes, call, None, None)
    case Ambiguous => AmbiguousOps(scopes, HeadOf(call), None, None)
  }

  function AmbiguousOps(scopes: Scopes, path: PathExpr, program: Option<nat>, inverse: Option<nat>): seq<Opcode> {
    [GetContext(path.depth), PushProgram(program), PushProgram(inverse)]
    + PathOps(scopes, path, false)
    + [InvokeAmbiguous(if path.parts == [] then "" else path.parts[0], program.Some? || inverse.Some?)]
  }

  function BlockOps(o: Options, scopes: Scopes, call: Call, program: Option<nat>, inverse: Option<nat>): seq<Opcode> {
    var rest := [PushProgram(program), PushProgram(inverse), EmptyHash(false)];
    match ClassifySexpr(o, scopes, HeadOf(call), Definite(call))
    case Helper => HelperOps(o, scopes, call, program, inverse)
    case Simple => SimpleOps(scopes, HeadOf(call)) + rest + [BlockValue(HeadOf(call).original)]
    case Ambiguous => AmbiguousOps(scopes, HeadOf(call), program, inverse) + rest + [AmbiguousBlockValue]
  }

  /** A partial without a parameter gets the current context, or none on request. */
  function PartialContext(o: Options, params: seq<Expr>): seq<Opcode> {
    if params == [] && o.explicitPartialContext then [PushLiteral("undefined")] else []
  }

  const CURRENT_CONTEXT := PathExpression(PathExpr("undefined", [], 0, false))

  function PartialParams(o: Options, params: seq<Expr>): seq<Expr> {
    if params == [] && !o.explicitPartialContext then [CURRENT_CONTEXT] else params
  }

  function NameOps(o: Options, scopes: Scopes, name: PartialName): seq<Opcode> {
    match name
    case StaticName(_) => []
    case DynamicName(call) => ExprOps(o, scopes, SubExpression(call))
  }

  function PartialTitle(name: PartialName): string {
    match name
    case StaticName(original) => original
    case DynamicName(_) => ""
  }

  // ---------------------------------------------------------------------------
  // Where the compiler throws.

  predicate LegalExpr(o: Options, scopes: Scopes, e: Expr)
    decreases e, 1
  {
    e.SubExpression? ==>
      ClassifySexpr(o, scopes, HeadOf(e.call), true) == Simple || LegalHelper(o, scopes, e.call)
  }

  predicate LegalHelper(o: Options, scopes: Scopes, call: Call)
    decreases call, 1
  {
    && LegalParams(o, scopes, call.params)
    && LegalHash(o, scopes, call.hash)
    && (o.knownHelpersOnly ==> Known(o, HeadOf(call)))
  }

  predicate LegalParams(o: Options, scopes: Scopes, params: seq<Expr>)
    decreases params, 0
  {
    params == [] || (LegalExpr(o, scopes, params[0]) && LegalParams(o, scopes, params[1..]))
  }

  predicate LegalHash(o: Options, scopes: Scopes, hash: Hash)
    decreases hash, 1
  {
    hash.Hash? ==> LegalPairs(o, scopes, hash.pairs)
  }

  predicate LegalPairs(o: Options, scopes: Scopes, pairs: seq<Pair>)
    decreases pairs, 0
  {
    pairs == [] || (LegalExpr(o, scopes, pairs[0].value) && LegalPairs(o, scopes, pairs[1..]))
  }

  predicate LegalBody(o: Options, scopes: Scopes, body: seq<Statement>)
    decreases body, 0
  {
    body == [] || (LegalStatement(o, scopes, body[0]) && LegalBody(o, scopes, body[1..]))
  }

  predicate LegalProgram(o: Options, scopes: Scopes, program: Option<Program>)
    decreases program, 2
  {
    program.Some? ==> LegalBody(o, [program.value.blockParams] + scopes, program.value.body)
  }

  predicate LegalArguments(o: Options, scopes: Scopes, name: PartialName, params: seq<Expr>, hash: Hash) {
    && (name.DynamicName? ==> LegalExpr(o, scopes, SubExpression(name.call)))
    && LegalParams(o, scopes, params) && LegalHash(o, scopes, hash)
  }

  predicate LegalStatement(o: Options, scopes: Scopes, s: Statement)
    decreases s, 1
  {
    match s
    case Mustache(call, _) =>
      ClassifySexpr(o, scopes, HeadOf(call), Definite(call)) == Helper ==> LegalHelper(o, scopes, call)
    case Block(call, program, inverse) =>
      && LegalProgram(o, scopes, program) && LegalProgram(o, scopes, inverse)
      && (ClassifySexpr(o, scopes, HeadOf(call), Definite(call)) == Helper ==> LegalHelper(o, scopes, call))
    case DecoratorBlock(call, program) =>
      LegalProgram(o, scopes, program) && LegalParams(o, scopes, call.params) && LegalHash(o, scopes, call.hash)
    case Partial(name, params, hash, program, _) =>
      && LegalProgram(o, scopes, program)
      && |params| <= 1
      && LegalArguments(o, scopes, name, params, hash)
    case Content(_) => true
    case Comment => true
  }

  lemma {:induction false} ImplicitParamIsLegal(o: Options, scopes: Scopes, params: seq<Expr>)
    ensures LegalParams(o, scopes, PartialParams(o, params)) == LegalParams(o, scopes, params)
  {
    assert LegalExpr(o, scopes, CURRENT_CONTEXT);
    assert [CURRENT_CONTEXT][1..] == [];
  }

  // ---------------------------------------------------------------------------
  // The compiler object.  A result `ok` of false stands for the exception.

  class Compiler {
    const options: Options
    var blockParams: Scopes
    var opcodes: seq<Opcode>
    var children: seq<Environment>

    constructor (options: Options, blockParams: Scopes)
      ensures this.options == options && this.blockParams == blockParams && opcodes == [] && children == []
    {
      this.options, this.blockParams := options, blockParams;
      opcodes, children := [], [];
    }

    method Opcode(op: Opcode)
      modifies this`opcodes
      ensures opcodes == old(opcodes) + [op]
    {
      opcodes := opcodes + [op];
    }

    method PathExpression(path: PathExpr, falsy: bool)
      modifies this`opcodes
      ensures opcodes == old(opcodes) + PathOps(blockParams, path, falsy)
    {
      Opcode(GetContext(path.depth));
      var blockParamId := None;
      if path.parts != [] && path.depth == 0 && !ScopedId(path.original) {
        blockParamId := BlockParamIndex(blockParams, path.parts[0]);
      }
      if blockParamId.Some? {
        Opcode(LookupBlockParam(blockParamId.value.0, blockParamId.value.1, path.parts));
      } else if path.parts == [] || path.parts[0] == "" {
        Opcode(PushContext);
      } else if path.data {
        Opcode(LookupData(path.depth, path.parts));
      } else {
        Opcode(LookupOnContext(path.parts, falsy));
      }
    }

    method Accept(e: Expr) returns (ok: bool)
      modifies this`opcodes
      ensures ok == LegalExpr(options, blockParams, e)
      ensures ok ==> opcodes == old(opcodes) + ExprOps(options, blockParams, e)
      decreases e, 1
    {
      ok := true;
      match e
      case PathExpression(path) => PathExpression(path, false);
      case StringLiteral(value) => Opcode(PushString(value));
      case Literal(text) => Opcode(PushLiteral(text));
      case SubExpression(call) =>
        if ClassifySexpr(options, blockParams, HeadOf(call), true) == Simple {
          SimpleSexpr(HeadOf(call));
        } else {
          ok := HelperSexpr(call, None, None);
        }
    }

    method SimpleSexpr(path: PathExpr)
      modifies this`opcodes
      ensures opcodes == old(opcodes) + SimpleOps(blockParams, path)
    {
      PathExpression(path, false);
      Opcode(ResolvePossibleLambda);
    }

    method PushParams(params: seq<Expr>) returns (ok: bool)
      modifies this`opcodes
      ensures ok == LegalParams(options, blockParams, params)
      ensures ok ==> opcodes == old(opcodes) + ParamsOps(options, blockParams, params)
      decreases params, 0
    {
      if params == [] {
        return true;
      }
      ok := Accept(params[0]);
      if ok {
        ok := PushParams(params[1..]);
      }
    }

    method PushValues(pairs: seq<Pair>) returns (ok: bool)
      modifies this`opcodes
      ensures ok == LegalPairs(options, blockParams, pairs)
      ensures ok ==> opcodes == old(opcodes) + PairsOps(options, blockParams, pairs)
      decreases pairs, 0
    {
      if pairs == [] {
        return true;
      }
      ok := Accept(pairs[0].value);
      if ok {
        ok := PushValues(pairs[1..]);
      }
    }

    method AcceptHash(hash: Hash, omitEmpty: bool) returns (ok: bool)
      modifies this`opcodes
      ensures ok == LegalHash(options, blockParams, hash)
      ensures ok ==> opcodes == old(opcodes) + HashOps(options, blockParams, hash, omitEmpty)
      decreases hash, 1
    {
      match hash
      case NoHash =>
        Opcode(EmptyHash(omitEmpty));
        ok := true;
      case Hash(pairs) =>
        Opcode(PushHash);
        ok := PushValues(pairs);
        if ok {
          ghost var before := opcodes;
          var i := |pairs|;
          assert pairs[i..] == [];
          while i > 0
            invariant 0 <= i <= |pairs|
            invariant opcodes == before + AssignOps(pairs[i..])
          {
            i := i - 1;
            assert pairs[i..][1..] == pairs[i + 1..];
            Opcode(AssignToHash(pairs[i].key));
          }
          assert pairs[0..] == pairs;
          Opcode(PopHash);
        }
    }

    method SetupFullMustacheParams(call: Call, program: Option<nat>, inverse: Option<nat>,
                                   omitEmpty: bool) returns (ok: bool)
      modifies this`opcodes
      ensures ok == (LegalParams(options, blockParams, call.params) && LegalHash(options, blockParams, call.hash))
      ensures ok ==> opcodes == old(opcodes) + (ParamsOps(options, blockParams, call.params)
                                                + [PushProgram(program), PushProgram(inverse)]
                                                + HashOps(options, blockParams, call.hash, omitEmpty))
      decreases call, 0
    {
      hide ParamsOps, HashOps, LegalParams, LegalHash;
      ghost var start := opcodes;
      ok := PushParams(call.params);
      if ok {
        Opcode(PushProgram(program));
        Opcode(PushProgram(inverse));
        ghost var middle := opcodes;
        assert middle == start + (ParamsOps(options, blockParams, call.params)
                                  + [PushProgram(program), PushProgram(inverse)]);
        ok := AcceptHash(call.hash, omitEmpty);
      }
    }

    method HelperSexpr(call: Call, program: Option<nat>, inverse: Option<nat>) returns (ok: bool)
      modifies this`opcodes
      ensures ok == LegalHelper(options, blockParams, call)
      ensures ok ==> opcodes == old(opcodes) + HelperOps(options, blockParams, call, program, inverse)
      decreases call, 1
    {
      hide PathOps, ExprOps, ParamsOps, PairsOps, HashOps, LegalExpr, LegalParams, LegalPairs, LegalHash;
      hide ScopedId, SimpleId, BlockParamIndex, ClassifySexpr;
      var path := HeadOf(call);
      ok := SetupFullMustacheParams(call, program, inverse, false);
      if !ok {
        return;
      }
      if Known(options, path) {
        Opcode(InvokeKnownHelper(|call.params|, path.parts[0]));
      } else if options.knownHelpersOnly {
        ok := false;
      } else {
        PathExpression(path, true);
        Opcode(InvokeHelper(|call.params|, path.original, SimpleId(path)));
      }
    }

    method AmbiguousSexpr(path: PathExpr, program: Option<nat>, inverse: Option<nat>)
      requires path.parts != []
      modifies this`opcodes
      ensures opcodes == old(opcodes) + AmbiguousOps(blockParams, path, program, inverse)
    {
      Opcode(GetContext(path.depth));
      Opcode(PushProgram(program));
      Opcode(PushProgram(inverse));
      PathExpression(path, false);
      Opcode(InvokeAmbiguous(path.parts[0], program.Some? || inverse.Some?));
    }

    /** compileProgram, where there is a program. */
    method CompileProgram(program: Option<Program>) returns (ok: bool, guid: Option<nat>)
      modifies this`children
      ensures ok == LegalProgram(options, blockParams, program)
      ensures ok ==> guid == Guid(program, |old(children)|)
      ensures ok ==> children == old(children) + Child(options, blockParams, program)
      decreases program, 2
    {
      ok, guid := true, None;
      if program.Some? {
        var childCompiler := new Compiler(options, blockParams);
        ok := childCompiler.Program(program.value);
        guid := Some(|children|);
        if ok {
          children := children + [Environment(childCompiler.opcodes, childCompiler.children)];
        }
      }
    }

    method Program(program: Program) returns (ok: bool)
      requires opcodes == [] && children == []
      modifies this
      ensures blockParams == old(blockParams)
      ensures ok == LegalProgram(options, blockParams, Some(program))
      ensures ok ==> Environment(opcodes, children) == Compile(options, blockParams, program)
      decreases program, 1
    {
      ghost var scopes := blockParams;
      blockParams := [program.blockParams] + blockParams;
      ok := Statements(program.body);
      blockParams := blockParams[1..];
    }

    method Statements(body: seq<Statement>) returns (ok: bool)
      modifies this`opcodes, this`children
      ensures ok == LegalBody(options, blockParams, body)
      ensures ok ==> var code := BodyCode(options, blockParams, body, |old(children)|);
                     opcodes == old(opcodes) + code.opcodes && children == old(children) + code.children
      decreases body, 0
    {
      hide StatementCode, LegalStatement;
      if body == [] {
        return true;
      }
      ok := AcceptStatement(body[0]);
      if ok {
        ok := Statements(body[1..]);
      }
    }

    method AcceptStatement(s: Statement) returns (ok: bool)
      modifies this`opcodes, this`children
      ensures ok == LegalStatement(options, blockParams, s)
      ensures ok ==> var code := StatementCode(options, blockParams, s, |old(children)|);
                     opcodes == old(opcodes) + code.opcodes && children == old(children) + code.children
      decreases s, 1
    {
      hide Compile, Child, LegalProgram, MustacheOps, BlockOps, LegalHelper, ClassifySexpr, ParamsOps, HashOps;
      match s
      case Mustache(call, escaped) =>
        ok := MustacheStatement(call);
        if ok {
          Opcode(if escaped && !options.noEscape then AppendEscaped else Append);
        }
      case Block(call, program, inverse) =>
        var p, i;
        ok, p := CompileProgram(program);
        if ok {
          ok, i := CompileProgram(inverse);
          if ok {
            ok := BlockStatement(call, p, i);
            Opcode(Append);
          }
        }
      case DecoratorBlock(call, program) =>
        ok := DecoratorBlockStatement(call, program);
      case Partial(name, params, hash, program, indent) =>
        ok := PartialStatement(name, params, hash, program, indent);
      case Content(value) =>
        ok := true;
        if value != "" {
          Opcode(AppendContent(value));
        }
      case Comment => ok := true;
    }

    method DecoratorBlockStatement(call: Call, program: Option<Program>) returns (ok: bool)
      modifies this`opcodes, this`children
      ensures ok == LegalStatement(options, blockParams, DecoratorBlock(call, program))
      ensures ok ==> var code := StatementCode(options, blockParams, DecoratorBlock(call, program), |old(children)|);
                     opcodes == old(opcodes) + code.opcodes && children == old(children) + code.children
      decreases program, 3
    {
      hide Compile, Child, LegalProgram, LegalParams, LegalHash, ParamsOps, HashOps;
      var p;
      ok, p := CompileProgram(program);
      if ok {
        ok := SetupFullMustacheParams(call, p, None, false);
        if ok {
          Opcode(RegisterDecorator(|call.params|, HeadOf(call).original));
        }
      }
    }

    method MustacheStatement(call: Call) returns (ok: bool)
      modifies this`opcodes
      ensures ok == LegalStatement(options, blockParams, Mustache(call, true))
      ensures ok ==> opcodes == old(opcodes) + MustacheOps(options, blockParams, call)
      decreases call, 2
    {
      var kind := ClassifySexpr(options, blockParams, HeadOf(call), Definite(call));
      ok := true;
      match kind
      case Simple => SimpleSexpr(HeadOf(call));
      case Helper => ok := HelperSexpr(call, None, None);
      case Ambiguous => AmbiguousSexpr(HeadOf(call), None, None);
    }

    method BlockStatement(call: Call, program: Option<nat>, inverse: Option<nat>) returns (ok: bool)
      modifies this`opcodes
      ensures ok == LegalStatement(options, blockParams, Mustache(call, true))
      ensures ok ==> opcodes == old(opcodes) + BlockOps(options, blockParams, call, program, inverse)
      decreases call, 2
    {
      var kind := ClassifySexpr(options, blockParams, HeadOf(call), Definite(call));
      ok := true;
      if kind == Helper {
        ok := HelperSexpr(call, program, inverse);
      } else {
        if kind == Simple {
          SimpleSexpr(HeadOf(call));
        } else {
          AmbiguousSexpr(HeadOf(call), program, inverse);
        }
        Opcode(PushProgram(program));
        Opcode(PushProgram(inverse));
        Opcode(EmptyHash(false));
        Opcode(if kind == Simple then BlockValue(HeadOf(call).original) else AmbiguousBlockValue);
      }
    }

    method PartialStatement(name: PartialName, params: seq<Expr>, hash: Hash, program: Option<Program>, indent: string)
        returns (ok: bool)
      modifies this`opcodes, this`children
      ensures ok == LegalStatement(options, blockParams, Partial(name, params, hash, program, indent))
      ensures ok ==> var code := StatementCode(options, blockParams, Partial(name, params, hash, program, indent),
                                               |old(children)|);
                     opcodes == old(opcodes) + code.opcodes && children == old(children) + code.children
      decreases program, 3
    {
      hide Compile, Child, LegalProgram, LegalArguments, PartialOps, PartialTitle;
      ghost var start := opcodes;
      var p;
      ok, p := CompileProgram(program);
      if !ok || |params| > 1 {
        return false;
      }
      ok := PartialArguments(name, params, hash, p);
      if ok {
        Opcode(InvokePartial(name.DynamicName?, PartialTitle(name), indent));
        Opcode(Append);
        ghost var args := PartialOps(options, blockParams, name, params, hash, p);
        assert opcodes == start + (args + [InvokePartial(name.DynamicName?, PartialTitle(name), indent), Append]);
      }
    }

    /** Everything that invokePartial finds on the stack. */
    method PartialArguments(name: PartialName, params: seq<Expr>, hash: Hash, program: Option<nat>) returns (ok: bool)
      modifies this`opcodes
      ensures ok == LegalArguments(options, blockParams, name, params, hash)
      ensures ok ==> opcodes == old(opcodes) + PartialOps(options, blockParams, name, params, hash, program)
    {
      hide LegalParams, LegalHash, LegalExpr, ParamsOps, HashOps, ExprOps, PartialContext, NameOps, PartialParams;
      ghost var start := opcodes;
      ok := PartialHead(name, params);
      if ok {
        ghost var head := opcodes;
        ImplicitParamIsLegal(options, blockParams, params);
        ok := SetupFullMustacheParams(Call(HeadLiteral(""), PartialParams(options, params), hash), program, None, true);
        assert ok ==> opcodes == start + PartialOps(options, blockParams, name, params, hash, program);
      }
    }

    /** The explicit missing context and the dynamic name. */
    method PartialHead(name: PartialName, params: seq<Expr>) returns (ok: bool)
      modifies this`opcodes
      ensures ok == (name.DynamicName? ==> LegalExpr(options, blockParams, SubExpression(name.call)))
      ensures ok ==> opcodes == old(opcodes) + (PartialContext(options, params) + NameOps(options, blockParams, name))
    {
      hide LegalExpr, ExprOps;
      if params == [] && options.explicitPartialContext {
        Opcode(PushLiteral("undefined"));
      }
      ok := true;
      if name.DynamicName? {
        ok := Accept(SubExpression(name.call));
      }
    }
  }
}
