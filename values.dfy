/** Values as the bot sees them once the news provider's JSON has been parsed:
    optional results, JavaScript text fields and the article record. */
module Values {

  datatype Option<+T> = None | Some(value: T)

  datatype Result<+R, +E> = Success(value: R) | Failure(error: E)

  /** A JSON field the bot uses as text: absent (`undefined`), `null`, or a string. */
  datatype JsText = Undefined | Null | Str(s: string)

  /** JavaScript truthiness of such a field: only a non-empty string is truthy. */
  predicate Truthy(t: JsText)
  {
    t.Str? && t.s != ""
  }

  /** The string `t || fallback` evaluates to; it is a string whatever `t` is. */
  function OrElse(t: JsText, fallback: string): string
  {
    if Truthy(t) then t.s else fallback
  }

  /** What a template literal `${t}` inserts for the field. */
  function Template(t: JsText): string
  {
    match t
    case Undefined => "undefined"
    case Null => "null"
    case Str(s) => s
  }

  /** One element of the provider's `articles` array. `publishedAt` is the
      already parsed timestamp (milliseconds since the epoch). */
  datatype Article = Article(
    title: JsText,
    description: JsText,
    url: JsText,
    urlToImage: JsText,
    publishedAt: int)
}
