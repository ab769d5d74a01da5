/** The value representations a generated builder stores per field
    (builder-pattern/src/setter.rs and the variants the generator emits).
    The source's `Setter` and `ValidatedSetter` enums do not declare every
    variant the generator writes (`Default`, `LateBoundDefault`,
    `LazyValidated`, `AsyncValidated`); the model has one union of all of them. */
module Setter {
  import opened Wrappers
  import Refl

  /** A runtime value of some field type; its contents are opaque. */
  type Value = string

  /** A zero-argument producer (`Box<dyn Fn() -> T>`, or an async one whose
      future resolves to `T`). Closure bodies are out of scope: a producer is
      represented by the value it produces. */
  datatype Producer = Producer(output: Value)

  /** A fallible producer (`Box<dyn Fn() -> Result<T, &'static str>>`): the
      generator composes a validator with a plain producer. */
  datatype FallibleProducer = Validated(validator: string, inner: Producer)

  datatype ValueRepr =
    | Value(v: Value)                        // `Setter::Value`, `ValidatedSetter::Value`
    | Lazy(f: Producer)                      // `Setter::Lazy`
    | Async(f: Producer)                     // `Setter::Async` (feature `future`)
    | LazyValidated(g: FallibleProducer)     // `ValidatedSetter::Lazy`
    | AsyncValidated(g: FallibleProducer)    // `ValidatedSetter::Async` (feature `future`)
    | Default(raw: Value, id: Refl.Witness)  // early-bound default and its witness
    | LateBoundDefault(id: Refl.Witness)     // default evaluated when the type is known

  /** What the generated code cannot see: user validators, `Into`
      conversions and the evaluation of default expressions. */
  datatype Env = Env(
    validate: (string, Value) -> Result<Value>,  // validator expression applied to a value
    convert: (string, Value) -> Value,           // `value.into()` to the named field type
    eval: string -> Value,                       // a default expression evaluated
    call: string -> Value,                       // a producer expression called: `(expr)()`
    debug: string -> string)                     // `{:?}` formatting of a validator's error

  /** Calling a fallible producer: the validator applied to what the inner
      producer yields. */
  function Run(env: Env, g: FallibleProducer): Result<Value>
  {
    env.validate(g.validator, g.inner.output)
  }

  /** The variants declared by setter.rs under a given `future` feature
      setting; `LazyValidated` and `AsyncValidated` are its
      `ValidatedSetter::Lazy` and `ValidatedSetter::Async`. `Default` and
      `LateBoundDefault` are declared under no setting, the asynchronous
      variants only with `future`, and with `future` every other variant is
      declared. */
  predicate Declared(v: ValueRepr, future: bool)
    ensures Declared(v, future) ==> !v.Default? && !v.LateBoundDefault?
    ensures Declared(v, future) && (v.Async? || v.AsyncValidated?) ==> future
    ensures future && !v.Default? && !v.LateBoundDefault? ==> Declared(v, future)
  {
    match v
    case Value(_) => true
    case Lazy(_) => true
    case LazyValidated(_) => true
    case Async(_) => future
    case AsyncValidated(_) => future
    case Default(_, _) => false
    case LateBoundDefault(_) => false
  }
}
