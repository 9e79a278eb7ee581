/** The language menu `src/components/LanguageSelector.jsx`: which of its
    four languages is shown as current for the i18n language code. */
module LanguageSelector {
  import opened Common
  import opened Text

  datatype Language = Language(code: string, name: string)

  const LANGUAGES: seq<Language> := [
    Language("en", "English"),
    Language("es", "Español"),
    Language("fr", "Français"),
    Language("pt", "Português")]

  /** `languages.find(lang => lang.code === code)`. */
  function ByCode(code: string): (r: Option<Language>)
    ensures r.Some? ==> r.value in LANGUAGES && r.value.code == code
    ensures r.None? <==> forall k :: 0 <= k < |LANGUAGES| ==> LANGUAGES[k].code != code
  {
    Find(LANGUAGES, (l: Language) => l.code == code)
  }

  /** `currentLanguage`: the exact code, else the part before the first
      `-`, else Spanish. */
  function CurrentLanguage(language: string): (l: Language)
    ensures l in LANGUAGES
    ensures ByCode(language).Some? ==> l == ByCode(language).value
    ensures ByCode(language).None? && ByCode(BeforeFirst(language, '-')).Some? ==>
      l == ByCode(BeforeFirst(language, '-')).value
    ensures ByCode(language).None? && ByCode(BeforeFirst(language, '-')).None? ==> l == LANGUAGES[1]
    ensures l.code == language || l.code == BeforeFirst(language, '-') || l.code == "es"
  {
    var exact := ByCode(language);
    if exact.Some? then exact.value
    else
      var base := ByCode(BeforeFirst(language, '-'));
      if base.Some? then base.value else LANGUAGES[1]
  }

  /** Every code in the menu has two letters. */
  lemma TwoLetterCodes()
    ensures forall k :: 0 <= k < |LANGUAGES| ==> |LANGUAGES[k].code| == 2
  {
  }

  /** A listed language is found by its own code. */
  lemma ByOwnCode(k: nat)
    requires k < |LANGUAGES|
    ensures ByCode(LANGUAGES[k].code) == Some(LANGUAGES[k])
  {
  }

  /** Any regional variant `<code>-<region>` of a listed language shows that
      language. */
  lemma RegionalVariant(k: nat, region: string)
    requires k < |LANGUAGES|
    ensures CurrentLanguage(LANGUAGES[k].code + "-" + region) == LANGUAGES[k]
  {
    TwoLetterCodes();
    var code := LANGUAGES[k].code;
    var tag := code + "-" + region;
    assert ByCode(tag).None? by {
      forall j | 0 <= j < |LANGUAGES|
        ensures LANGUAGES[j].code != tag
      {
        assert |tag| > 2;
      }
    }
    var base := BeforeFirst(tag, '-');
    assert tag[2] == '-' && tag[0] != '-' && tag[1] != '-';
    assert |base| == 2;
    assert base == tag[..2] == code;
    ByOwnCode(k);
  }

  /** A tag that starts with none of the other listed codes shows Spanish. */
  lemma UnknownCode(tag: string)
    requires !StartsWith(tag, "en") && !StartsWith(tag, "fr") && !StartsWith(tag, "pt")
    ensures CurrentLanguage(tag) == LANGUAGES[1]
  {
    var base := BeforeFirst(tag, '-');
    assert StartsWith(tag, base);
    if ByCode(tag).Some? {
      assert ByCode(tag).value.code == tag;
      assert tag[..2] == tag;
    } else if ByCode(base).Some? {
      assert ByCode(base).value.code == base;
      assert tag[..|base|] == base;
    }
  }
}
