/** The translation context: an English and a Hindi message table, the
    current language (restored from local storage on start) and `t`,
    which falls back to the key itself. */
module I18n {
  import opened Wrappers
  import opened Domain

  /** The message keys, in the order both tables list them. */
  const Keys: seq<string> := ["appTitle", "login", "email", "password", "role", "admin", "deptHead",
    "staff", "dashboard", "map", "issues", "departments", "analytics", "logout", "language"]

  const English: map<string, string> := map[
    "appTitle" := "Crowdsourced Civic Issue Reporting and Resolution System",
    "login" := "Login",
    "email" := "Email",
    "password" := "Password",
    "role" := "Role",
    "admin" := "Admin",
    "deptHead" := "Department Head",
    "staff" := "Staff",
    "dashboard" := "Dashboard",
    "map" := "Map",
    "issues" := "Issues",
    "departments" := "Departments",
    "analytics" := "Analytics",
    "logout" := "Logout",
    "language" := "Language"]

  /** The Hindi table. The "password" entry begins with two U+FFFD
      replacement characters, as the source file stores it. */
  const Hindi: map<string, string> := map[
    "appTitle" := "जन-सहभागिता नागरिक समस्या रिपोर्टिंग और समाधान प्रणाली",
    "login" := "लॉगिन",
    "email" := "ईमेल",
    "password" := "\U{FFFD}\U{FFFD}ासवर्ड",
    "role" := "भूमिका",
    "admin" := "प्रशासक",
    "deptHead" := "विभाग प्रमुख",
    "staff" := "कर्मचारी",
    "dashboard" := "डैशबोर्ड",
    "map" := "मानचित्र",
    "issues" := "शिकायतें",
    "departments" := "विभाग",
    "analytics" := "विश्लेषण",
    "logout" := "लॉगआउट",
    "language" := "भाषा"]

  /** `messages[l]`: the table of a language; each translates exactly the
      listed keys, none to an empty text. */
  function Messages(l: LanguageCode): (r: map<string, string>)
    ensures forall key :: key in r <==> key in Keys
    ensures forall key :: key in r ==> r[key] != ""
  {
    match l
    case En =>
      assert forall key :: key in English <==> key in Keys by {
        forall key ensures key in English <==> key in Keys { EnglishDomain(key); }
      }
      English
    case Hi =>
      assert forall key :: key in Hindi <==> key in Keys by {
        forall key ensures key in Hindi <==> key in Keys { HindiDomain(key); }
      }
      Hindi
  }

  lemma EnglishDomain(key: string)
    ensures key in English <==> key in Keys
  {
  }

  lemma HindiDomain(key: string)
    ensures key in Hindi <==> key in Keys
  {
  }

  /** `messages[lang]` for a language held as a plain string, as the
      context holds it after an unchecked cast: only "en" and "hi" have a table. */
  function Table(lang: string): (r: Option<map<string, string>>)
    ensures r.Some? <==> lang in LanguageNames
    ensures r.Some? ==> r.value == Messages(ParseLanguage(lang).value)
  {
    match ParseLanguage(lang)
    case Some(l) => Some(Messages(l))
    case None => None
  }

  /** The error `t` raises when the language has no table: reading a key of
      `undefined`. */
  const NoTable: string := "TypeError"

  /** `t(key)`: the table's entry when present and non-empty, the key
      otherwise; an error when the language has no table. */
  function T(lang: string, key: string): (r: Result<string, string>)
    ensures r.Err? <==> lang !in LanguageNames
    ensures r.Err? ==> r.error == NoTable
    ensures r.Ok? && key !in Messages(ParseLanguage(lang).value) ==> r.value == key
    ensures r.Ok? && key in Messages(ParseLanguage(lang).value) && Messages(ParseLanguage(lang).value)[key] != "" ==>
      r.value == Messages(ParseLanguage(lang).value)[key]
    ensures r.Ok? && r.value != key ==> key in Messages(ParseLanguage(lang).value)
  {
    match Table(lang)
    case None => Err(NoTable)
    case Some(m) => if key in m && m[key] != "" then Ok(m[key]) else Ok(key)
  }

  /** The context's state and the local storage it reads and writes. */
  datatype State = State(lang: string, storage: map<string, string>)

  const StorageKey: string := "lang"

  /** The provider on mount, as written: a stored non-empty value is taken
      as the language without checking it; otherwise English. */
  function Init(storage: map<string, string>): (s: State)
    ensures s.storage == storage
    ensures StorageKey in storage && storage[StorageKey] != "" ==> s.lang == storage[StorageKey]
    ensures !(StorageKey in storage && storage[StorageKey] != "") ==> s.lang == "en"
  {
    var stored := if StorageKey in storage then storage[StorageKey] else "";
    State(if stored != "" then stored else "en", storage)
  }

  /** The provider on mount with the stored value checked against the two
      language codes; anything else falls back to English. */
  function InitChecked(storage: map<string, string>): (s: State)
    ensures s.storage == storage
    ensures s.lang in LanguageNames
    ensures StorageKey in storage && storage[StorageKey] in LanguageNames ==> s.lang == storage[StorageKey]
  {
    var stored := if StorageKey in storage then storage[StorageKey] else "";
    State(if ParseLanguage(stored).Some? then stored else "en", storage)
  }

  /** `setLang(l)`: writes the code to storage and makes it current. */
  function SetLang(s: State, l: LanguageCode): (r: State)
    ensures r.lang == LanguageName(l)
    ensures StorageKey in r.storage && ParseLanguage(r.storage[StorageKey]) == Some(l)
    ensures forall k :: k in s.storage && k != StorageKey ==> k in r.storage && r.storage[k] == s.storage[k]
  {
    LanguageNameRoundTrip(l, l);
    State(LanguageName(l), s.storage[StorageKey := LanguageName(l)])
  }

  /** With a known language, `t` of a listed key is that table's entry and
      `t` of any other key is the key. */
  lemma TranslateKnown(l: LanguageCode, key: string)
    ensures key in Keys ==> T(LanguageName(l), key) == Ok(Messages(l)[key])
    ensures key !in Keys ==> T(LanguageName(l), key) == Ok(key)
  {
    LanguageNameRoundTrip(l, l);
  }

  /** A language chosen with `setLang` is restored on the next start, by
      either start-up. */
  lemma SetLangPersists(s: State, l: LanguageCode)
    ensures Init(SetLang(s, l).storage).lang == LanguageName(l)
    ensures InitChecked(SetLang(s, l).storage).lang == LanguageName(l)
  {
  }

  /** Where both start-ups read a valid code or nothing, they agree. */
  lemma InitCheckedAgrees(storage: map<string, string>)
    requires StorageKey in storage ==> storage[StorageKey] in LanguageNames || storage[StorageKey] == ""
    ensures InitChecked(storage) == Init(storage)
  {
  }

  /** As written, a stored value other than "en" or "hi" (say "fr", left by
      another page on the same origin) becomes the language and every `t`
      call then fails. */
  lemma UncheckedStoredLanguageBreaksT(key: string)
    ensures T(Init(map[StorageKey := "fr"]).lang, key) == Err(NoTable)
  {
  }

  /** Started with the check, `t` never fails, whatever storage holds. */
  lemma CheckedStartNeverFails(storage: map<string, string>, key: string)
    ensures T(InitChecked(storage).lang, key).Ok?
  {
  }
}
