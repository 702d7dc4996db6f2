/** `utils/validationError.js`: the Express error handler that turns a
    Mongoose validation error into a 400 answer, and the `ValidationError`
    class the code can throw itself. */
module SchemaErrors {
  import opened Common
  import opened Envelope

  /** One entry of `err.errors`: only its `message` is read. */
  datatype Item = Item(message: string)

  /** A thrown error: `name`, `message`, the optional `errors` object and the
      optional `statusCode`. */
  datatype Thrown = Thrown(name: string, message: string, errors: Option<map<string, Item>>, statusCode: Option<int>)

  /** An error handler either answers or calls `next(err)`. */
  datatype Handled = Answer(reply: Reply<()>) | PassOn(err: Thrown)

  predicate IsValidationName(name: string)
  {
    name == "ValidationError" || name == "ValidatorError"
  }

  /** `err.errors` reduced to `{key: message}`; absent gives `{}`. */
  function Messages(errors: Option<map<string, Item>>): (m: map<string, string>)
    ensures errors.None? ==> m == map[]
    ensures errors.Some? ==> m.Keys == errors.value.Keys
    ensures errors.Some? ==> forall k | k in m :: m[k] == errors.value[k].message
  {
    if errors.None? then map[]
    else map k | k in errors.value :: errors.value[k].message
  }

  /** `validationErrorHandler`. */
  function Handle(err: Thrown): (h: Handled)
    ensures h.Answer? <==> IsValidationName(err.name)
    ensures h.PassOn? ==> h.err == err
    ensures h.Answer? ==> h.reply.status == 400 && h.reply.body.SchemaRejected?
    ensures h.Answer? ==> SuccessFlag(h.reply.body) == Some(false)
    ensures h.Answer? ==>
      h.reply.body.fieldMessages.Keys == (if err.errors.Some? then err.errors.value.Keys else {})
  {
    if IsValidationName(err.name) then Answer(Reply(400, SchemaRejected(Messages(err.errors))))
    else PassOn(err)
  }

  /** `new ValidationError(message, errors = {})`. */
  function NewValidationError(message: string, errors: map<string, Item> := map[]): (e: Thrown)
    ensures IsValidationName(e.name) && e.statusCode == Some(400)
    ensures e.errors == Some(errors) && e.message == message
  {
    Thrown("ValidationError", message, Some(errors), Some(400))
  }

  /** The class and the handler fit together: throwing a `ValidationError`
      is answered 400 with exactly its field messages. */
  lemma ThrownValidationErrorAnswered(message: string, errors: map<string, Item>)
    ensures var h := Handle(NewValidationError(message, errors));
      h.Answer? && h.reply.status == 400
      && h.reply.body.fieldMessages == map k | k in errors :: errors[k].message
  {
  }

  /** A `ValidationError` built without field errors answers with `{}`. */
  lemma DefaultErrorsEmpty(message: string)
    ensures Handle(NewValidationError(message)).reply.body.fieldMessages == map[]
  {
  }

  /** Any other error reaches the next handler untouched. */
  lemma OtherErrorsPassOn(err: Thrown)
    requires !IsValidationName(err.name)
    ensures Handle(err) == PassOn(err)
  {
  }
}
