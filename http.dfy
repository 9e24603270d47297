/** What the handlers exchange with Express: the request bodies they
    destructure, the JSON envelope they send, and the error objects they pass
    to `next`. */
module Http {
  import opened Js

  /** The properties of a thrown error that the error middleware inspects.
      `errors` holds `Object.values(err.errors).map(e => e.message)` and
      `keyPattern` holds `Object.keys(err.keyPattern)`, both in key order. */
  datatype Error = Error(
    name: string,
    code: Option<int>,
    errors: seq<string>,
    keyPattern: seq<string>,
    status: Option<int>,
    message: string,
    stack: Option<string>)

  /** A mongoose ValidationError carrying one message per failing path. */
  function ValidationError(messages: seq<string>): Error
  {
    Error("ValidationError", None, messages, [], None, "Validation failed", None)
  }

  /** The CastError mongoose throws when an id is not an ObjectId. */
  function CastError(): Error
  {
    Error("CastError", None, [], [], None, "Cast to ObjectId failed", None)
  }

  /** The MongoDB duplicate-key error (code 11000) on a unique index over `field`. */
  function DuplicateKeyError(field: string): Error
  {
    Error("MongoServerError", Some(11000), [], [field], None, "E11000 duplicate key error", None)
  }

  /** The JSON envelope `{success, message?, data?, count?, stack?}`. */
  datatype Body<D> = Body(
    success: bool,
    message: Option<string>,
    data: Option<D>,
    count: Option<nat>,
    stack: Option<string>)

  datatype Response<D> = Response(status: int, body: Body<D>)

  /** What a handler does: send a response, or call `next(error)`. */
  datatype Reply<D> = Send(response: Response<D>) | Next(error: Error)

  /** `res.status(status).json({ success: false, message })`. */
  function Failure<D>(status: int, message: string): Response<D> {
    Response(status, Body(false, Some(message), None, None, None))
  }

  /** One entry of express-validator's error list: the field and the
      message its failed rule carries. */
  datatype FieldError = FieldError(field: string, message: string)

  /** What one rule of a chain adds to the error list: its own error exactly
      when it fails. */
  function RuleErrors(ok: bool, e: FieldError): (errs: seq<FieldError>)
    ensures e in errs <==> !ok
    ensures |errs| <= 1 && forall x :: x in errs ==> x == e
  {
    if ok then [] else [e]
  }

  /** The fields `createRecipe` and `updateRecipe` destructure from
      `req.body`, plus the `author` a client may send and the handlers ignore. */
  datatype RecipeBody = RecipeBody(
    title: Field<string>,
    description: Field<string>,
    ingredients: Field<seq<string>>,
    instructions: Field<seq<string>>,
    category: Field<string>,
    cookingTime: Field<real>,
    servings: Field<real>,
    author: Field<string>)

  /** The fields `updateProfile` destructures from `req.body`. */
  datatype ProfileBody = ProfileBody(
    username: Field<string>,
    email: Field<string>,
    bio: Field<string>)
}
