/**
 * The interface language: English or Hindi, English until the provider has
 * mounted and found a recognised code under the `locale` storage key.
 * Choosing a language stores its code and switches to it. Nothing is rendered
 * before the mount step has run.
 */
module LanguageContext {
  import opened Js
  import opened LocalStorage

  /** `Locale`: the type admits exactly two languages. */
  datatype Locale = En | Hi

  const LocaleKey: string := "locale"

  /** The code stored for a locale. */
  function Code(l: Locale): (code: string)
    ensures code == "en" || code == "hi"
  {
    match l
    case En => "en"
    case Hi => "hi"
  }

  /** The mount's check of a stored value: only the two codes are recognised. */
  function ParseLocale(saved: Option<string>): (l: Option<Locale>)
    ensures l.Some? <==> saved == Some("en") || saved == Some("hi")
    ensures l.Some? ==> saved == Some(Code(l.value))
  {
    if saved == Some("en") then Some(En)
    else if saved == Some("hi") then Some(Hi)
    else None
  }

  /** Every locale's code is recognised as that locale. */
  lemma ParseCode(l: Locale)
    ensures ParseLocale(Some(Code(l))) == Some(l)
  {
  }

  /** The locale after the mount effect, from the stored value and the locale before it. */
  function MountedLocale(saved: Option<string>, current: Locale): (l: Locale)
    ensures ParseLocale(saved).Some? ==> l == ParseLocale(saved).value
    ensures ParseLocale(saved).None? ==> l == current
  {
    match ParseLocale(saved)
    case Some(s) => s
    case None => current
  }

  /** A missing, empty or unrecognised stored value leaves English. */
  lemma UnrecognisedKeepsEnglish(saved: Option<string>)
    requires saved != Some("en") && saved != Some("hi")
    ensures MountedLocale(saved, En) == En
  {
  }

  class LanguageProvider {
    var locale: Locale
    var isMounted: bool

    constructor ()
      ensures locale == En && !isMounted && !Renders()
    {
      locale, isMounted := En, false;
    }

    /** The provider renders its children only once it has mounted. */
    function Renders(): (r: bool)
      reads this
      ensures r <==> isMounted
    {
      isMounted
    }

    /** The mount effect: adopt a recognised stored code, then mark the provider mounted. */
    method Mount<T>(store: Store<T>)
      modifies this
      ensures locale == MountedLocale(store.GetItem(LocaleKey), old(locale))
      ensures isMounted && Renders()
    {
      var saved := store.GetItem(LocaleKey);
      if ParseLocale(saved).Some? {
        locale := ParseLocale(saved).value;
      }
      isMounted := true;
    }

    /** `setLocale(l)`: store the code, then switch. */
    method SetLocale<T>(store: Store<T>, l: Locale)
      modifies this, store
      ensures store.data == old(store.data)[LocaleKey := Text(Code(l))]
      ensures locale == l && isMounted == old(isMounted)
    {
      store.SetItem(LocaleKey, Text(Code(l)));
      locale := l;
    }
  }

  /** A language chosen in one session is the language of the next: a fresh provider mounts into it. */
  method ChoiceSurvivesReload<T>(store: Store<T>, l: Locale) returns (next: LanguageProvider)
    modifies store
    ensures LocaleKey in store.data && store.data[LocaleKey] == Text(Code(l))
    ensures next.locale == l && next.Renders()
  {
    var first := new LanguageProvider();
    first.Mount(store);
    first.SetLocale(store, l);
    next := new LanguageProvider();
    next.Mount(store);
    ParseCode(l);
  }
}
