/** `translateText`: one text sent to the translation provider (target locale
    zh-TW), with a fallback to the original text whenever the call fails. */
module Translation {
  import opened Values

  /** Sent instead of a falsy text. */
  const Placeholder := "無標題"

  /** The `target` parameter of every request; recorded as data only, since
      the provider is given as a function of each call's outcome. */
  const TargetLocale := "zh-TW"

  /** The `q` parameter of the request: `text || '無標題'`. */
  function Query(text: JsText): (q: string)
    ensures q != ""
    ensures Truthy(text) ==> q == text.s
    ensures !Truthy(text) ==> q == Placeholder
  {
    OrElse(text, Placeholder)
  }

  /** `translateText(text)` once the provider's outcome is known. `Some(v)`:
      the response carried `data.data.translations[0].translatedText == v`;
      `None`: the request was rejected or that path threw. The function is
      total: translation never raises. */
  function TranslateText(text: JsText, outcome: Option<JsText>): (r: JsText)
    ensures r == text || outcome == Some(r)
  {
    match outcome
    case Some(v) => v
    case None => text
  }

  /** On success the provider's text comes back; on failure the original input
      comes back unchanged (also when it was empty or absent), never the
      placeholder that was sent in its place. */
  lemma TranslateFallback(text: JsText, outcome: Option<JsText>)
    ensures outcome.Some? ==> TranslateText(text, outcome) == outcome.value
    ensures outcome.None? ==> TranslateText(text, outcome) == text
    ensures outcome.None? && !Truthy(text) ==> TranslateText(text, outcome) != Str(Query(text))
  {
  }
}
