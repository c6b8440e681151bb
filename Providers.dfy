/** The translation providers as data: the premium Google endpoint and the
    four free APIs in the order they are tried, and how a provider's HTTP
    reply becomes a translation or an exception. The network is not
    modelled; a reply is an input. */
module Providers {

  datatype Provider = GoogleTranslate | LibreTranslate | MyMemory | LingvaTranslate | TranslateApi

  /** `TRANSLATION_APIS`, in list order. */
  const FREE_APIS: seq<Provider> := [LibreTranslate, MyMemory, LingvaTranslate, TranslateApi]

  /** The name the source logs and reports for a provider. */
  function Name(p: Provider): string
  {
    match p
      case GoogleTranslate => "Google Translate"
      case LibreTranslate => "LibreTranslate"
      case MyMemory => "MyMemory"
      case LingvaTranslate => "LingvaTranslate"
      case TranslateApi => "TranslateAPI"
  }

  /** The providers `translateText` tries, in order: Google only when an API
      key is configured, then every free API. */
  function ProviderOrder(premiumKey: string): seq<Provider>
  {
    (if premiumKey != "" then [GoogleTranslate] else []) + FREE_APIS
  }

  /** Google is tried exactly when a key is set, and then before any free
      API; the free APIs always close the list, in list order, each once. */
  lemma ProviderOrderFacts(premiumKey: string)
    ensures GoogleTranslate in ProviderOrder(premiumKey) <==> premiumKey != ""
    ensures premiumKey != "" ==> ProviderOrder(premiumKey)[0] == GoogleTranslate
    ensures |ProviderOrder(premiumKey)| >= 4
    ensures ProviderOrder(premiumKey)[|ProviderOrder(premiumKey)| - 4..] == FREE_APIS
    ensures forall i, j :: 0 <= i < j < |ProviderOrder(premiumKey)| ==>
              ProviderOrder(premiumKey)[i] != ProviderOrder(premiumKey)[j]
  {
  }

  /** A parsed JSON body, flattened to the string values found at each
      property path (`responseData.translatedText`, `data.translations.0.translatedText`). */
  datatype Body = Unparsable | Json(fields: map<string, string>)

  /** What `fetch` produced: a rejected promise, or a response with a status. */
  datatype Reply = NetworkError | Response(status: int, body: Body)

  /** Why a provider call threw. */
  datatype Failure = NetworkFailure | HttpStatus(status: int) | InvalidJson

  /** What a provider call did: threw, or returned a string. */
  datatype Outcome = Threw(failure: Failure) | Returned(text: string)

  /** The property path each provider's translation is read from. */
  function ResultPath(p: Provider): string
  {
    match p
      case GoogleTranslate => "data.translations.0.translatedText"
      case LibreTranslate => "translatedText"
      case TranslateApi => "translatedText"
      case MyMemory => "responseData.translatedText"
      case LingvaTranslate => "translation"
  }

  /** `response.ok`. */
  predicate IsOk(status: int)
  {
    200 <= status <= 299
  }

  /** `tryTranslationAPI` / `tryGoogleTranslate`: a failed fetch, a non-2xx
      status or a body that is not JSON throws; otherwise the field is
      returned, or the input text when the field is missing or empty
      (`field || text`). */
  function Interpret(p: Provider, reply: Reply, text: string): (o: Outcome)
  {
    match reply
      case NetworkError => Threw(NetworkFailure)
      case Response(status, body) =>
        if !IsOk(status) then Threw(HttpStatus(status))
        else match body
          case Unparsable => Threw(InvalidJson)
          case Json(fields) =>
            var path := ResultPath(p);
            if path in fields && fields[path] != "" then Returned(fields[path]) else Returned(text)
  }

  /** `translateText` keeps an outcome that returned a non-empty string
      different from its input. */
  predicate Accepts(o: Outcome, text: string)
  {
    o.Returned? && o.text != "" && o.text != text
  }

  /** A provider call throws exactly when the fetch fails, the status is not
      2xx, or the body is not JSON. */
  lemma InterpretThrows(p: Provider, reply: Reply, text: string)
    ensures Interpret(p, reply, text).Threw? <==>
            reply.NetworkError? || !IsOk(reply.status) || reply.body.Unparsable?
  {
  }

  /** An outcome is accepted exactly when the reply is a 2xx JSON body whose
      provider-specific field is non-empty and differs from the input. */
  lemma AcceptsIff(p: Provider, reply: Reply, text: string)
    ensures Accepts(Interpret(p, reply, text), text) <==>
            reply.Response? && IsOk(reply.status) && reply.body.Json? &&
            ResultPath(p) in reply.body.fields &&
            reply.body.fields[ResultPath(p)] != "" && reply.body.fields[ResultPath(p)] != text
  {
  }

  /** A call that does not throw returns a non-empty string whenever the
      input is non-empty. */
  lemma ReturnedNonEmpty(p: Provider, reply: Reply, text: string)
    requires text != ""
    ensures Interpret(p, reply, text).Returned? ==> Interpret(p, reply, text).text != ""
  {
  }
}
