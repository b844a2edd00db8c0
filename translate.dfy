/** The UI translation cache `_T`: a process-wide dict from locale to a dict
    from word to translated text. A miss answers from the bundled table
    (`LANG_TEXT`) at once and defers the real lookup (`pgettext`, which
    Blender only allows on its main thread) to the `Timer` queue. The current
    locale, `LANG_TEXT` and `pgettext`'s answer are inputs. */
module Translate {
  import opened Json
  import opened Deferred

  type Culture = map<string, string>
  type Cache = map<string, Culture>

  /** `culture.get(word)` is truthy: a cached, non-empty text. */
  predicate Hit(tr: Cache, locale: string, word: string) {
    locale in tr && word in tr[locale] && tr[locale][word] != []
  }

  /** `LANG_TEXT.get(locale, {}).get(word, word)`. */
  function Fallback(langText: Cache, locale: string, word: string): (r: string)
    ensures locale !in langText ==> r == word
    ensures locale in langText && word !in langText[locale] ==> r == word
    ensures locale in langText && word in langText[locale] ==> r == langText[locale][word]
  {
    if locale in langText && word in langText[locale] then langText[locale][word] else word
  }

  /** `translation.setdefault(locale, {})`, as a new cache. */
  function SetDefault(tr: Cache, locale: string): (t: Cache)
    ensures locale in t && t.Keys == tr.Keys + {locale}
    ensures forall l :: l in tr ==> t[l] == tr[l]
    ensures locale !in tr ==> t[locale] == map[]
  {
    if locale in tr then tr else tr[locale := map[]]
  }

  /** One `_T(word)` call: the new cache, the deferred tasks it submits, and
      what it returns. */
  function Translate(tr: Cache, word: Json, locale: string, langText: Cache): (Cache, seq<Task>, Json) {
    if !word.JStr? then (tr, [], word)
    else
      var t := SetDefault(tr, locale);
      if Hit(t, locale, word.s) then (t, [], JStr(t[locale][word.s]))
      else (t, [FillTranslation(locale, word.s)], JStr(Fallback(langText, locale, word.s)))
  }

  /** The deferred `f(word)`: `culture[word] = pgettext(word)`. */
  function Fill(tr: Cache, locale: string, word: string, text: string): (t: Cache)
    requires locale in tr
  {
    tr[locale := tr[locale][word := text]]
  }

  /** A value that is not a string comes back unchanged, and nothing else happens. */
  lemma NonStringPassesThrough(tr: Cache, word: Json, locale: string, langText: Cache)
    requires !word.JStr?
    ensures Translate(tr, word, locale, langText) == (tr, [], word)
  {
  }

  /** A cached non-empty text is returned as is; nothing is deferred and the
      cache is unchanged. */
  lemma HitReturnsCached(tr: Cache, word: string, locale: string, langText: Cache)
    requires Hit(tr, locale, word)
    ensures Translate(tr, JStr(word), locale, langText) == (tr, [], JStr(tr[locale][word]))
  {
  }

  /** A miss (no entry, or an empty cached text) defers exactly one fill for
      this locale and word and answers from the bundled table, else with the
      word itself; the cache afterwards has the locale and is otherwise as before. */
  lemma MissDefersOneFill(tr: Cache, word: string, locale: string, langText: Cache)
    requires !Hit(tr, locale, word)
    ensures var (t, tasks, r) := Translate(tr, JStr(word), locale, langText);
            && tasks == [FillTranslation(locale, word)]
            && r == JStr(Fallback(langText, locale, word))
            && t == SetDefault(tr, locale)
            && (forall w :: w in t[locale] ==> w in tr[locale] && t[locale][w] == tr[locale][w])
  {
  }

  /** Once the deferred fill has run with a non-empty text, the same word in
      the same locale hits and returns that text. */
  lemma FillThenHit(tr: Cache, word: string, locale: string, langText: Cache, text: string)
    requires !Hit(tr, locale, word) && text != []
    ensures var t := Translate(tr, JStr(word), locale, langText).0;
            var filled := Fill(t, locale, word, text);
            Translate(filled, JStr(word), locale, langText) == (filled, [], JStr(text))
  {
    var t := Translate(tr, JStr(word), locale, langText).0;
    assert t == SetDefault(tr, locale);
    var filled := Fill(t, locale, word, text);
    assert Hit(filled, locale, word);
  }

  /** A fill for one locale leaves every other locale's answers alone. */
  lemma FillKeepsOtherLocales(tr: Cache, locale: string, word: string, text: string, other: string, w: string)
    requires locale in tr && other != locale
    ensures Hit(Fill(tr, locale, word, text), other, w) <==> Hit(tr, other, w)
    ensures Hit(tr, other, w) ==> Fill(tr, locale, word, text)[other][w] == tr[other][w]
  {
  }

  /** The module-level `translation` dict with `_T` and its deferred fill. */
  class Translator {
    var translation: Cache

    constructor ()
      ensures translation == map[]
    {
      translation := map[];
    }

    /** `_T(word)` with the current locale and bundled table. */
    method T(word: Json, locale: string, langText: Cache, timer: TimerQueue) returns (r: Json)
      modifies this, timer
      ensures var (t, tasks, res) := Translate(old(translation), word, locale, langText);
              translation == t && timer.pending == old(timer.pending) + tasks && r == res
    {
      if !word.JStr? {
        return word;
      }
      translation := SetDefault(translation, locale);
      var culture := translation[locale];
      if word.s in culture && culture[word.s] != [] {
        return JStr(culture[word.s]);
      }
      timer.Put(FillTranslation(locale, word.s));
      r := JStr(Fallback(langText, locale, word.s));
    }

    /** The deferred `f(word)` run on the main thread with `pgettext(word)`. */
    method RunFill(locale: string, word: string, text: string)
      requires locale in translation
      modifies this
      ensures translation == Fill(old(translation), locale, word, text)
    {
      var culture := translation[locale];
      culture := culture[word := text];
      translation := translation[locale := culture];
    }
  }
}
