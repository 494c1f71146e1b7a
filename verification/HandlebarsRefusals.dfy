/** Which templates the first half of the compiler refuses. */
module HandlebarsRefusals {
  import opened Wrappers
  import opened HandlebarsCompiler

  // ---------------------------------------------------------------------------
  // The helper calls of a template, at every depth, and the parameters of its partials.

  function ExprHelpers(o: Options, scopes: Scopes, e: Expr): seq<PathExpr>
    decreases e, 1
  {
    if e.SubExpression? && ClassifySexpr(o, scopes, HeadOf(e.call), true) != Simple then CallHelpers(o, scopes, e.call)
    else []
  }

  /** The call itself, and those in its parameters and its hash. */
  function CallHelpers(o: Options, scopes: Scopes, call: Call): seq<PathExpr>
    decreases call, 1
  {
    [HeadOf(call)] + ParamsHelpers(o, scopes, call.params) + HashHelpers(o, scopes, call.hash)
  }

  function ParamsHelpers(o: Options, scopes: Scopes, params: seq<Expr>): seq<PathExpr>
    decreases params, 0
  {
    if params == [] then [] else ExprHelpers(o, scopes, params[0]) + ParamsHelpers(o, scopes, params[1..])
  }

  function HashHelpers(o: Options, scopes: Scopes, hash: Hash): seq<PathExpr>
    decreases hash, 1
  {
    match hash
    case NoHash => []
    case Hash(pairs) => PairsHelpers(o, scopes, pairs)
  }

  function PairsHelpers(o: Options, scopes: Scopes, pairs: seq<Pair>): seq<PathExpr>
    decreases pairs, 0
  {
    if pairs == [] then [] else ExprHelpers(o, scopes, pairs[0].value) + PairsHelpers(o, scopes, pairs[1..])
  }

  function HeadHelpers(o: Options, scopes: Scopes, call: Call): seq<PathExpr> {
    if ClassifySexpr(o, scopes, HeadOf(call), Definite(call)) == Helper then CallHelpers(o, scopes, call) else []
  }

  function StatementHelpers(o: Options, scopes: Scopes, s: Statement): seq<PathExpr>
    decreases s, 1
  {
    match s
    case Mustache(call, _) => HeadHelpers(o, scopes, call)
    case Block(call, program, inverse) =>
      HeadHelpers(o, scopes, call) + NestedHelpers(o, scopes, program) + NestedHelpers(o, scopes, inverse)
    case DecoratorBlock(call, program) =>
      ParamsHelpers(o, scopes, call.params) + HashHelpers(o, scopes, call.hash) + NestedHelpers(o, scopes, program)
    case Partial(name, params, hash, program, _) =>
      (if name.DynamicName? then ExprHelpers(o, scopes, SubExpression(name.call)) else [])
      + ParamsHelpers(o, scopes, params) + HashHelpers(o, scopes, hash) + NestedHelpers(o, scopes, program)
    case Content(_) => []
    case Comment => []
  }

  function NestedHelpers(o: Options, scopes: Scopes, program: Option<Program>): seq<PathExpr>
    decreases program, 2
  {
    if program.None? then [] else BodyHelpers(o, [program.value.blockParams] + scopes, program.value.body)
  }

  function BodyHelpers(o: Options, scopes: Scopes, body: seq<Statement>): seq<PathExpr>
    decreases body, 0
  {
    if body == [] then [] else StatementHelpers(o, scopes, body[0]) + BodyHelpers(o, scopes, body[1..])
  }

  function StatementPartials(s: Statement): seq<nat>
    decreases s, 1
  {
    match s
    case Block(_, program, inverse) => NestedPartials(program) + NestedPartials(inverse)
    case DecoratorBlock(_, program) => NestedPartials(program)
    case Partial(_, params, _, program, _) => [|params|] + NestedPartials(program)
    case Mustache(_, _) => []
    case Content(_) => []
    case Comment => []
  }

  function NestedPartials(program: Option<Program>): seq<nat>
    decreases program, 2
  {
    if program.None? then [] else BodyPartials(program.value.body)
  }

  function BodyPartials(body: seq<Statement>): seq<nat>
    decreases body, 0
  {
    if body == [] then [] else StatementPartials(body[0]) + BodyPartials(body[1..])
  }

  // ---------------------------------------------------------------------------
  // Refused is what calls an unknown helper or gives a partial too much.

  /** Where only known helpers are allowed, every helper is known. */
  predicate HelpersAllowed(o: Options, helpers: seq<PathExpr>) {
    o.knownHelpersOnly ==> forall path :: path in helpers ==> path.parts != [] && path.parts[0] in o.knownHelpers
  }

  predicate PartialsAllowed(sizes: seq<nat>) {
    forall n :: n in sizes ==> n <= 1
  }

  lemma {:induction false} HelpersJoin(o: Options, a: seq<PathExpr>, b: seq<PathExpr>)
    ensures HelpersAllowed(o, []) && (HelpersAllowed(o, a + b) <==> HelpersAllowed(o, a) && HelpersAllowed(o, b))
  {
    assert forall path :: path in a || path in b ==> path in a + b;
  }

  lemma {:induction false} PartialsJoin(a: seq<nat>, b: seq<nat>)
    ensures PartialsAllowed([]) && (PartialsAllowed(a + b) <==> PartialsAllowed(a) && PartialsAllowed(b))
  {
    assert forall n :: n in a || n in b ==> n in a + b;
  }

  lemma {:induction false} OneHelper(o: Options, path: PathExpr)
    ensures HelpersAllowed(o, [path]) <==> (o.knownHelpersOnly ==> Known(o, path))
  {
    assert path in [path];
  }

  lemma {:induction false} OnePartial(n: nat)
    ensures PartialsAllowed([n]) <==> n <= 1
  {
    assert n in [n];
  }

  lemma {:induction false} ExprRefused(o: Options, scopes: Scopes, e: Expr)
    ensures LegalExpr(o, scopes, e) <==> HelpersAllowed(o, ExprHelpers(o, scopes, e))
    decreases e, 1
  {
    hide HelpersAllowed, ClassifySexpr, CallHelpers, LegalHelper;
    HelpersJoin(o, [], []);
    if e.SubExpression? {
      CallRefused(o, scopes, e.call);
    }
  }

  lemma {:induction false} CallRefused(o: Options, scopes: Scopes, call: Call)
    ensures LegalHelper(o, scopes, call) <==> HelpersAllowed(o, CallHelpers(o, scopes, call))
    decreases call, 1
  {
    hide HelpersAllowed, HeadOf, Known, LegalParams, LegalHash, ParamsHelpers, HashHelpers;
    var params, hash := ParamsHelpers(o, scopes, call.params), HashHelpers(o, scopes, call.hash);
    ParamsRefused(o, scopes, call.params);
    HashRefused(o, scopes, call.hash);
    HelpersJoin(o, [HeadOf(call)] + params, hash);
    HelpersJoin(o, [HeadOf(call)], params);
    OneHelper(o, HeadOf(call));
  }

  lemma {:induction false} ParamsRefused(o: Options, scopes: Scopes, params: seq<Expr>)
    ensures LegalParams(o, scopes, params) <==> HelpersAllowed(o, ParamsHelpers(o, scopes, params))
    decreases params, 0
  {
    hide HelpersAllowed, LegalExpr, ExprHelpers;
    HelpersJoin(o, [], []);
    if params != [] {
      ExprRefused(o, scopes, params[0]);
      ParamsRefused(o, scopes, params[1..]);
      HelpersJoin(o, ExprHelpers(o, scopes, params[0]), ParamsHelpers(o, scopes, params[1..]));
    }
  }

  lemma {:induction false} HashRefused(o: Options, scopes: Scopes, hash: Hash)
    ensures LegalHash(o, scopes, hash) <==> HelpersAllowed(o, HashHelpers(o, scopes, hash))
    decreases hash, 1
  {
    hide HelpersAllowed, LegalPairs, PairsHelpers;
    HelpersJoin(o, [], []);
    if hash.Hash? {
      PairsRefused(o, scopes, hash.pairs);
    }
  }

  lemma {:induction false} PairsRefused(o: Options, scopes: Scopes, pairs: seq<Pair>)
    ensures LegalPairs(o, scopes, pairs) <==> HelpersAllowed(o, PairsHelpers(o, scopes, pairs))
    decreases pairs, 0
  {
    hide HelpersAllowed, LegalExpr, ExprHelpers;
    HelpersJoin(o, [], []);
    if pairs != [] {
      ExprRefused(o, scopes, pairs[0].value);
      PairsRefused(o, scopes, pairs[1..]);
      HelpersJoin(o, ExprHelpers(o, scopes, pairs[0].value), PairsHelpers(o, scopes, pairs[1..]));
    }
  }

  lemma {:induction false} HeadRefused(o: Options, scopes: Scopes, call: Call)
    ensures ClassifySexpr(o, scopes, HeadOf(call), Definite(call)) == Helper ==>
              (LegalHelper(o, scopes, call) <==> HelpersAllowed(o, HeadHelpers(o, scopes, call)))
    ensures ClassifySexpr(o, scopes, HeadOf(call), Definite(call)) != Helper ==>
              HelpersAllowed(o, HeadHelpers(o, scopes, call))
  {
    hide HelpersAllowed, ClassifySexpr, CallHelpers, LegalHelper, HeadOf;
    HelpersJoin(o, [], []);
    CallRefused(o, scopes, call);
  }

  lemma {:induction false} StatementRefused(o: Options, scopes: Scopes, s: Statement)
    ensures LegalStatement(o, scopes, s)
            <==> HelpersAllowed(o, StatementHelpers(o, scopes, s)) && PartialsAllowed(StatementPartials(s))
    decreases s, 1
  {
    hide HelpersAllowed, PartialsAllowed, ClassifySexpr, CallHelpers, LegalHelper, LegalParams, LegalHash, LegalExpr,
         LegalProgram, HeadOf, ParamsHelpers, HashHelpers, ExprHelpers, NestedHelpers, NestedPartials, HeadHelpers;
    HelpersJoin(o, [], []);
    PartialsJoin([], []);
    match s
    case Mustache(call, _) => HeadRefused(o, scopes, call);
    case Block(call, program, inverse) =>
      var head, first, second := HeadHelpers(o, scopes, call), NestedHelpers(o, scopes, program),
                                 NestedHelpers(o, scopes, inverse);
      HeadRefused(o, scopes, call);
      NestedRefused(o, scopes, program);
      NestedRefused(o, scopes, inverse);
      HelpersJoin(o, head + first, second);
      HelpersJoin(o, head, first);
      PartialsJoin(NestedPartials(program), NestedPartials(inverse));
    case DecoratorBlock(call, program) =>
      ParamsRefused(o, scopes, call.params);
      HashRefused(o, scopes, call.hash);
      NestedRefused(o, scopes, program);
      var params, hash := ParamsHelpers(o, scopes, call.params), HashHelpers(o, scopes, call.hash);
      HelpersJoin(o, params + hash, NestedHelpers(o, scopes, program));
      HelpersJoin(o, params, hash);
    case Partial(name, params, hash, program, _) =>
      var first := if name.DynamicName? then ExprHelpers(o, scopes, SubExpression(name.call)) else [];
      PartialRefused(o, scopes, name, params, hash, first);
      NestedRefused(o, scopes, program);
      var given := first + ParamsHelpers(o, scopes, params) + HashHelpers(o, scopes, hash);
      HelpersJoin(o, given, NestedHelpers(o, scopes, program));
      PartialsJoin([|params|], NestedPartials(program));
      OnePartial(|params|);
    case Content(_) =>
    case Comment =>
  }

  lemma {:induction false} PartialRefused(o: Options, scopes: Scopes, name: PartialName, params: seq<Expr>, hash: Hash,
                                          first: seq<PathExpr>)
    requires first == if name.DynamicName? then ExprHelpers(o, scopes, SubExpression(name.call)) else []
    ensures LegalArguments(o, scopes, name, params, hash)
            <==> HelpersAllowed(o, first + ParamsHelpers(o, scopes, params) + HashHelpers(o, scopes, hash))
    decreases name, params, hash, 2
  {
    hide HelpersAllowed, LegalParams, LegalHash, LegalExpr, ParamsHelpers, HashHelpers, ExprHelpers;
    HelpersJoin(o, [], []);
    if name.DynamicName? {
      ExprRefused(o, scopes, SubExpression(name.call));
    }
    ParamsRefused(o, scopes, params);
    HashRefused(o, scopes, hash);
    HelpersJoin(o, first + ParamsHelpers(o, scopes, params), HashHelpers(o, scopes, hash));
    HelpersJoin(o, first, ParamsHelpers(o, scopes, params));
  }

  lemma {:induction false} NestedRefused(o: Options, scopes: Scopes, program: Option<Program>)
    ensures LegalProgram(o, scopes, program)
            <==> HelpersAllowed(o, NestedHelpers(o, scopes, program)) && PartialsAllowed(NestedPartials(program))
    decreases program, 2
  {
    hide HelpersAllowed, PartialsAllowed, LegalBody, BodyHelpers, BodyPartials;
    HelpersJoin(o, [], []);
    PartialsJoin([], []);
    if program.Some? {
      BodyRefused(o, [program.value.blockParams] + scopes, program.value.body);
    }
  }

  lemma {:induction false} BodyRefused(o: Options, scopes: Scopes, body: seq<Statement>)
    ensures LegalBody(o, scopes, body)
            <==> HelpersAllowed(o, BodyHelpers(o, scopes, body)) && PartialsAllowed(BodyPartials(body))
    decreases body, 0
  {
    hide HelpersAllowed, PartialsAllowed, LegalStatement, StatementHelpers, StatementPartials;
    HelpersJoin(o, [], []);
    PartialsJoin([], []);
    if body != [] {
      StatementRefused(o, scopes, body[0]);
      BodyRefused(o, scopes, body[1..]);
      HelpersJoin(o, StatementHelpers(o, scopes, body[0]), BodyHelpers(o, scopes, body[1..]));
      PartialsJoin(StatementPartials(body[0]), BodyPartials(body[1..]));
    }
  }

  /** A template is compiled if and only if no partial in it, at any depth, has more than one parameter and, where only
      known helpers are allowed, every call in it that is compiled as a helper is of a known one. */
  lemma {:induction false} RefusedExactly(o: Options, scopes: Scopes, program: Program)
    ensures LegalProgram(o, scopes, Some(program))
            <==> && (o.knownHelpersOnly ==>
                       forall path :: path in NestedHelpers(o, scopes, Some(program)) ==>
                         path.parts != [] && path.parts[0] in o.knownHelpers)
                 && (forall n :: n in NestedPartials(Some(program)) ==> n <= 1)
  {
    hide LegalProgram, NestedHelpers, NestedPartials;
    NestedRefused(o, scopes, Some(program));
  }
}
