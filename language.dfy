/** `src/context/LanguageContext.tsx`: the site language, its persisted
    copy in local storage, the text direction, and the document attributes
    kept in step with it. */
module Language {
  import opened Common

  datatype Lang = En | Ar

  /** The language's code, as stored and as set on the document. */
  function Code(l: Lang): (r: string)
    ensures r == "en" || r == "ar"
    ensures Decode(r) == Some(l)
  {
    match l
    case En => "en"
    case Ar => "ar"
  }

  /** A stored value names a language only when it is exactly "en" or "ar". */
  function Decode(s: string): (r: Option<Lang>)
    ensures r.Some? <==> s == "en" || s == "ar"
  {
    if s == "en" then Some(En) else if s == "ar" then Some(Ar) else None
  }

  /** `language === 'ar' ? 'rtl' : 'ltr'` */
  function Dir(l: Lang): (r: string)
    ensures r == "rtl" <==> l == Ar
    ensures r == "rtl" || r == "ltr"
  {
    if l == Ar then "rtl" else "ltr"
  }

  /** `translations[language]`: the text table of the language. */
  function Texts<X>(l: Lang, en: X, ar: X): (r: X)
    ensures l == En ==> r == en
    ensures l == Ar ==> r == ar
  {
    if l == Ar then ar else en
  }

  /** The provider's state, the `language` entry of local storage, and
      the `lang`/`dir` attributes of the document element. */
  class LanguageProvider {
    var language: Lang
    var stored: Option<string>
    var documentLang: string
    var documentDir: string

    /** The first render: English, whatever is stored. */
    constructor (storage: Option<string>)
      ensures language == En && stored == storage
      ensures documentLang == "en" && documentDir == "ltr"
    {
      language := En;
      stored := storage;
      documentLang := "en";
      documentDir := "ltr";
    }

    predicate InStep()
      reads this
    {
      documentLang == Code(language) && documentDir == Dir(language)
    }

    /** The mount effect: a stored "en" or "ar" is adopted, anything else
        ignored; the document then follows the language. */
    method Mount()
      modifies this
      ensures stored == old(stored)
      ensures stored.Some? && Decode(stored.value).Some? ==> language == Decode(stored.value).value
      ensures !(stored.Some? && Decode(stored.value).Some?) ==> language == old(language)
      ensures InStep()
    {
      if stored.Some? && Decode(stored.value).Some? {
        language := Decode(stored.value).value;
      }
      documentLang := Code(language);
      documentDir := Dir(language);
    }

    /** `setLanguage` as the context hands it out: the state and the stored
        copy both become `l`, and the document follows. */
    method ChangeLanguage(l: Lang)
      modifies this
      ensures language == l && stored == Some(Code(l))
      ensures InStep()
    {
      language := l;
      stored := Some(Code(l));
      documentLang := Code(language);
      documentDir := Dir(language);
    }
  }
}
