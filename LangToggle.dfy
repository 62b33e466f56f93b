/** The header's language toggle: a link to the same page in the other
    locale, labelled with that locale's code in capitals. */
module LangToggle {

  /** The locale the link switches to. */
  function NewLocale(locale: string): string
  {
    if locale == "pt" then "en" else "pt"
  }

  /** The link's label. */
  function Label(locale: string): string
  {
    if locale == "pt" then "EN" else "PT"
  }

  function UpperChar(c: char): char
  {
    if 'a' <= c <= 'z' then (c as int - 'a' as int + 'A' as int) as char else c
  }

  /** The `uppercase` text transform on ASCII letters. */
  function Upper(s: string): (r: string)
    ensures |r| == |s|
    ensures forall i :: 0 <= i < |s| ==> r[i] == UpperChar(s[i])
  {
    seq(|s|, i requires 0 <= i < |s| => UpperChar(s[i]))
  }

  /** The toggle goes to "en" from "pt" and to "pt" from anything else, so
      it always leaves the current locale; on the two supported locales it
      is an involution; and the label is the target locale in capitals. */
  lemma NewLocaleSpec(locale: string)
    ensures NewLocale(locale) == "en" <==> locale == "pt"
    ensures NewLocale(locale) != locale
    ensures NewLocale(locale) == "en" || NewLocale(locale) == "pt"
    ensures locale == "pt" || locale == "en" ==> NewLocale(NewLocale(locale)) == locale
    ensures Label(locale) == Upper(NewLocale(locale))
  {
    assert Upper("en") == "EN";
    assert Upper("pt") == "PT";
  }

  /** The link's destination: the current pathname in the new locale. */
  datatype Link = Link(href: string, locale: string)

  function ToggleLink(locale: string, pathname: string): Link
  {
    Link(pathname, NewLocale(locale))
  }

  /** Following the toggle twice from a supported locale comes back to the
      same page in the same locale. */
  lemma ToggleLinkRoundTrip(locale: string, pathname: string)
    requires locale == "pt" || locale == "en"
    ensures var there := ToggleLink(locale, pathname);
            ToggleLink(there.locale, there.href) == Link(pathname, locale)
  {
    NewLocaleSpec(locale);
  }
}
