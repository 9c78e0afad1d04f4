/** The variable store of src/environment.rs: a map from names to values
    and an optional enclosing store that lookups fall back to. */
module Environment {
  import opened Wrappers
  import opened Common

  /** `RuntimeError`: what an evaluation step reports. */
  datatype RuntimeError = RuntimeError(message: string)

  /** `Environment`: this scope's bindings and the scope around it. */
  datatype Env = Env(values: map<string, LiteralValue>, enclosing: Option<Env>)

  /** `Environment::default`: no bindings and no enclosing scope. */
  const Global: Env := Env(map[], Option.None)

  /** `Environment::new`: an empty scope inside `enclosing`. */
  function NewScope(enclosing: Option<Env>): (env: Env)
    ensures env.values == map[] && env.enclosing == enclosing
  {
    Env(map[], enclosing)
  }

  /** The message of a lookup or assignment of an unbound name. */
  function UndefinedVariable(name: string): string {
    "Undefined variable '" + name + "'."
  }

  /** The bindings visible from a scope: those of the enclosing scopes,
      each overridden by the ones inside it. */
  function Visible(env: Env): map<string, LiteralValue>
    decreases env
  {
    match env.enclosing
    case None => env.values
    case Some(outer) => Visible(outer) + env.values
  }

  /** The number of scopes in the chain. */
  function Depth(env: Env): (d: nat)
    ensures d >= 1
    decreases env
  {
    match env.enclosing
    case None => 1
    case Some(outer) => 1 + Depth(outer)
  }

  /** `define`: binds or rebinds a name in this scope only. */
  function Define(env: Env, name: Token, value: LiteralValue): (r: Env)
    ensures r.enclosing == env.enclosing
    ensures r.values.Keys == env.values.Keys + {name.lexeme}
    ensures r.values[name.lexeme] == value
    ensures forall k :: k in env.values && k != name.lexeme ==> r.values[k] == env.values[k]
  {
    env.(values := env.values[name.lexeme := value])
  }

  /** `get`: the innermost binding of the name, or the "Undefined
      variable" error. */
  function Get(env: Env, name: Token): (r: Outcome<LiteralValue, RuntimeError>)
    ensures !r.Panic?
    ensures r.Err? ==> r.error == RuntimeError(UndefinedVariable(name.lexeme))
    ensures name.lexeme in env.values ==> r == Ok(env.values[name.lexeme])
    decreases env
  {
    if name.lexeme in env.values then Ok(env.values[name.lexeme])
    else if env.enclosing.Some? then Get(env.enclosing.value, name)
    else Err(RuntimeError(UndefinedVariable(name.lexeme)))
  }

  /** `assign` as evidently intended: rebinds the name in the innermost
      scope that binds it, and is the "Undefined variable" error when no
      scope does. */
  function Assign(env: Env, name: Token, value: LiteralValue): (r: Outcome<Env, RuntimeError>)
    ensures !r.Panic?
    ensures r.Err? ==> r.error == RuntimeError(UndefinedVariable(name.lexeme))
    ensures r.Ok? ==> Depth(r.value) == Depth(env) && r.value.values.Keys == env.values.Keys
    decreases env
  {
    if name.lexeme in env.values then Ok(env.(values := env.values[name.lexeme := value]))
    else if env.enclosing.Some? then
      var outer :- Assign(env.enclosing.value, name, value);
      Ok(env.(enclosing := Some(outer)))
    else Err(RuntimeError(UndefinedVariable(name.lexeme)))
  }

  /** `assign` as written in src/environment.rs: a name not bound in this
      scope is assigned in a copy of the enclosing scope, which is then
      dropped, and the outcome is `Ok` whatever that copy's assignment
      gave. */
  function AssignAsWritten(env: Env, name: Token, value: LiteralValue): (r: Outcome<Env, RuntimeError>)
    ensures !r.Panic?
    ensures r.Err? <==> name.lexeme !in env.values && env.enclosing.None?
    ensures r.Err? ==> r.error == RuntimeError(UndefinedVariable(name.lexeme))
    ensures r.Ok? && name.lexeme in env.values ==> r.value == Define(env, name, value)
    ensures r.Ok? && name.lexeme !in env.values ==> r.value == env
  {
    if name.lexeme in env.values then Ok(env.(values := env.values[name.lexeme := value]))
    else if env.enclosing.Some? then Ok(env)
    else Err(RuntimeError(UndefinedVariable(name.lexeme)))
  }

  /** `get` sees exactly the visible bindings. */
  lemma {:induction false} GetReadsVisible(env: Env, name: Token)
    ensures Get(env, name) == if name.lexeme in Visible(env) then Ok(Visible(env)[name.lexeme])
                              else Err(RuntimeError(UndefinedVariable(name.lexeme)))
    decreases env
  {
    if name.lexeme !in env.values && env.enclosing.Some? {
      GetReadsVisible(env.enclosing.value, name);
    }
  }

  /** `define` changes the visible bindings at the name only. */
  lemma DefineUpdatesVisible(env: Env, name: Token, value: LiteralValue)
    ensures Visible(Define(env, name, value)) == Visible(env)[name.lexeme := value]
  {
  }

  /** After `define`, `get` of the name gives the value, and `get` of any
      other name is unaffected. */
  lemma GetAfterDefine(env: Env, name: Token, value: LiteralValue, other: Token)
    ensures Get(Define(env, name, value), name) == Ok(value)
    ensures other.lexeme != name.lexeme ==> Get(Define(env, name, value), other) == Get(env, other)
  {
    DefineUpdatesVisible(env, name, value);
    GetReadsVisible(Define(env, name, value), other);
    GetReadsVisible(env, other);
  }

  /** `assign` succeeds exactly when the name is visible, and then changes
      the visible bindings at that name only: it never creates a binding. */
  lemma {:induction false} AssignUpdatesVisible(env: Env, name: Token, value: LiteralValue)
    ensures Assign(env, name, value).Ok? <==> name.lexeme in Visible(env)
    ensures Assign(env, name, value).Ok? ==> Visible(Assign(env, name, value).value) == Visible(env)[name.lexeme := value]
    decreases env
  {
    var k := name.lexeme;
    match env.enclosing
    case None =>
    case Some(outer) =>
      if k in env.values {
        UpdateUnder(Visible(outer), env.values, k, value);
      } else {
        AssignUpdatesVisible(outer, name, value);
        if Assign(outer, name, value).Ok? {
          UpdateOver(Visible(outer), env.values, k, value);
        }
      }
  }

  /** Rebinding a key of the inner map of a union. */
  lemma UpdateUnder(outer: map<string, LiteralValue>, inner: map<string, LiteralValue>, k: string, v: LiteralValue)
    requires k in inner
    ensures outer + inner[k := v] == (outer + inner)[k := v]
  {
  }

  /** Rebinding a key of the outer map of a union that the inner map does
      not hide. */
  lemma UpdateOver(outer: map<string, LiteralValue>, inner: map<string, LiteralValue>, k: string, v: LiteralValue)
    requires k !in inner
    ensures outer[k := v] + inner == (outer + inner)[k := v]
  {
  }

  /** In a single scope the two versions of `assign` agree, so the
      discrepancy only shows once scopes are nested. */
  lemma AssignAgreesInOneScope(env: Env, name: Token, value: LiteralValue)
    requires env.enclosing.None?
    ensures AssignAsWritten(env, name, value) == Assign(env, name, value)
  {
  }

  /** The discrepancy: with `a = 1` in the enclosing scope, assigning 2 to
      `a` from an inner scope is `Ok` as written yet `a` still reads 1;
      as intended it reads 2. Assigning an unbound name from the inner
      scope is also `Ok` as written. */
  lemma AssignAsWrittenLosesOuterUpdate()
    ensures var a := Token(Identifier, "a", LiteralValue.None, 1);
            var inner := NewScope(Some(Define(Global, a, Float(1.0))));
            && AssignAsWritten(inner, a, Float(2.0)) == Ok(inner)
            && Get(AssignAsWritten(inner, a, Float(2.0)).value, a) == Ok(Float(1.0))
            && Assign(inner, a, Float(2.0)).Ok?
            && Get(Assign(inner, a, Float(2.0)).value, a) == Ok(Float(2.0))
    ensures var b := Token(Identifier, "b", LiteralValue.None, 1);
            var inner := NewScope(Some(Global));
            && AssignAsWritten(inner, b, Float(2.0)).Ok?
            && Assign(inner, b, Float(2.0)).Err?
  {
  }
}
