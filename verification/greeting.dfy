/** The greeting chosen by the `GetHelloWorld` handler of main.go. */
module Greeting {

  /** The language used when the `lang` query parameter is empty or absent. */
  const DefaultLang: string := "en"

  /** The language actually used: the query parameter, or the default when it is empty. */
  function EffectiveLang(lang: string): (l: string)
    ensures |l| > 0
    ensures |lang| == 0 ==> l == DefaultLang
    ensures |lang| > 0 ==> l == lang
  {
    if |lang| == 0 then DefaultLang else lang
  }

  /** The greeting prefix of a language: Malay for "bm", English for every other. */
  function Salutation(lang: string): string {
    match lang
    case "bm" => "Selamat sejahtera, "
    case _ => "Hello, "
  }

  /** The `value` field of the response: the salutation followed by the name. */
  function Greet(name: string, lang: string): (value: string)
    ensures lang == "bm" ==> value == "Selamat sejahtera, " + name
    ensures lang != "bm" ==> value == "Hello, " + name
    ensures |value| > |name| && value[|value| - |name|..] == name
  {
    Salutation(EffectiveLang(lang)) + name
  }

  /** An empty language greets exactly as English does. */
  lemma EmptyLangIsEnglish(name: string)
    ensures Greet(name, "") == Greet(name, "en") == "Hello, " + name
  {
  }

  /** The greeting the handler's test expects for `/hello/anas?lang=bm`. */
  lemma MalayGreetingExample()
    ensures Greet("anas", "bm") == "Selamat sejahtera, anas"
  {
  }
}
