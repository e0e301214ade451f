/** The Twig extension: the bundle configuration exposed to templates, and
    the `contact_trans` filter that translates a key or, failing that, turns
    the key itself into readable Title Case text. The translator is an
    abstract function from key, parameters and domain to a translation or an
    exception. */
module TwigExtension {
  import opened Php

  const DefaultDomain: string := "contact_us"

  // ---------------------------------------------------------------------
  // Plain-text fallback

  /** The text after the last '.', as `end(explode('.', $key))`. */
  function LastSegment(key: string): (seg: string)
    ensures '.' !in seg
    ensures |seg| <= |key| && key[|key| - |seg|..] == seg
    ensures |seg| < |key| ==> key[|key| - |seg| - 1] == '.'
    decreases |key|
  {
    if |key| == 0 || key[|key| - 1] == '.' then ""
    else LastSegment(key[..|key| - 1]) + [key[|key| - 1]]
  }

  /** `preg_replace('/[_-]/', ' ', $s)`. */
  function Spaced(s: string): (r: string)
    ensures |r| == |s|
    ensures forall i :: 0 <= i < |s| ==> r[i] == (if s[i] == '_' || s[i] == '-' then ' ' else s[i])
  {
    seq(|s|, i requires 0 <= i < |s| => if s[i] == '_' || s[i] == '-' then ' ' else s[i])
  }

  /** ucwords()'s word separators: space, tab, CR, LF, form feed and vertical tab. */
  predicate IsWordSeparator(c: char) {
    c == ' ' || c == '\t' || c == '\r' || c == '\n' || c == '\U{C}' || c == '\U{B}'
  }

  /** Whether position i starts a word: the first character, or one after a separator. */
  predicate WordStart(s: string, i: int)
    requires 0 <= i < |s|
  {
    i == 0 || IsWordSeparator(s[i - 1])
  }

  /** ucwords(): the first letter of each word upper-cased, nothing else changed. */
  function Ucwords(s: string): (r: string)
    ensures |r| == |s|
    ensures forall i :: 0 <= i < |s| ==> r[i] == (if WordStart(s, i) then Upper(s[i]) else s[i])
  {
    seq(|s|, i requires 0 <= i < |s| => if WordStart(s, i) then Upper(s[i]) else s[i])
  }

  /** extractPlainText(): the text after the last dot, '_' and '-' turned
      into spaces, and ucwords() applied. The result is as long as that
      segment and differs from its spaced form only in letter case. */
  function ExtractPlainText(key: string): (r: string)
    ensures |r| == |LastSegment(key)|
    ensures forall i :: 0 <= i < |r| ==> Lower(r[i]) == Lower(Spaced(LastSegment(key))[i])
  {
    UcwordsShape(Spaced(LastSegment(key)));
    Ucwords(Spaced(LastSegment(key)))
  }

  /** Ucwords changes only the case of word starts, and leaves no word
      starting with a lower-case letter. */
  lemma UcwordsShape(s: string)
    ensures var r := Ucwords(s);
      && (forall i :: 0 <= i < |r| ==> WordStart(r, i) == WordStart(s, i))
      && (forall i :: 0 <= i < |r| ==> Lower(r[i]) == Lower(s[i]))
      && (forall i :: 0 <= i < |r| && WordStart(r, i) ==> !IsAsciiLower(r[i]))
      && (forall i :: 0 <= i < |r| && !WordStart(r, i) ==> r[i] == s[i])
  {
    var r := Ucwords(s);
    forall i | 0 <= i < |r| ensures WordStart(r, i) == WordStart(s, i) {
      if i > 0 {
        UpperCase(s[i - 1]);
      }
    }
    forall i | 0 <= i < |r| ensures Lower(r[i]) == Lower(s[i]) && (WordStart(s, i) ==> !IsAsciiLower(r[i])) {
      UpperCase(s[i]);
    }
  }

  /** Upper-casing a character keeps its lower-case form and whether it
      separates words, and leaves no lower-case letter. */
  lemma UpperCase(c: char)
    ensures Lower(Upper(c)) == Lower(c) && !IsAsciiLower(Upper(c))
    ensures IsWordSeparator(Upper(c)) == IsWordSeparator(c)
  {
  }

  /** A word of a key segment: no dot, underscore, hyphen or separator. */
  predicate PlainWord(w: string) {
    && |w| > 0
    && forall i :: 0 <= i < |w| ==>
         !IsWordSeparator(w[i]) && w[i] != '.' && w[i] != '_' && w[i] != '-'
  }

  /** A word with its first character upper-cased. */
  function Capitalized(w: string): string
    requires |w| > 0
  {
    [Upper(w[0])] + w[1..]
  }

  /** A single word: only its first character is upper-cased. */
  lemma UcwordsWord(w: string)
    requires PlainWord(w)
    ensures Ucwords(w) == Capitalized(w)
  {
    var r := Capitalized(w);
    forall i | 0 <= i < |w| ensures Ucwords(w)[i] == r[i] {
      if i > 0 {
        assert !IsWordSeparator(w[i - 1]);
      }
    }
  }

  /** The fallback text of a key ending in a single word is that word
      capitalised. */
  lemma PlainTextOfWord(prefix: string, w: string)
    requires PlainWord(w)
    ensures ExtractPlainText(prefix + "." + w) == Capitalized(w)
  {
    assert '.' !in w by {
      forall i | 0 <= i < |w| ensures w[i] != '.' {
      }
    }
    LastSegmentAfterDot(prefix, w);
    SpacedUnchanged(w);
    UcwordsWord(w);
  }

  /** A key without a dot that is a single word: that word capitalised. */
  lemma PlainTextOfBareWord(w: string)
    requires PlainWord(w)
    ensures ExtractPlainText(w) == Capitalized(w)
  {
    assert '.' !in w by {
      forall i | 0 <= i < |w| ensures w[i] != '.' {
      }
    }
    NoDotSegment(w);
    SpacedUnchanged(w);
    UcwordsWord(w);
  }

  /** Three words joined by spaces are capitalised one by one. */
  lemma UcwordsThree(a: string, b: string, c: string)
    requires PlainWord(a) && PlainWord(b) && PlainWord(c)
    ensures Ucwords(a + " " + (b + " " + c)) == Capitalized(a) + " " + (Capitalized(b) + " " + Capitalized(c))
  {
    UcwordsJoin(a, b + " " + c);
    UcwordsJoin(b, c);
    UcwordsWord(a);
    UcwordsWord(b);
    UcwordsWord(c);
  }

  /** Words joined by a space are capitalised one by one. */
  lemma UcwordsJoin(a: string, b: string)
    ensures Ucwords(a + " " + b) == Ucwords(a) + " " + Ucwords(b)
  {
    var s := a + " " + b;
    var r := Ucwords(a) + " " + Ucwords(b);
    forall i | 0 <= i < |s| ensures Ucwords(s)[i] == r[i] {
      if i < |a| {
        assert s[i] == a[i] && r[i] == Ucwords(a)[i];
        if i > 0 {
          assert s[i - 1] == a[i - 1];
        }
      } else if i == |a| {
        assert s[i] == ' ' && r[i] == ' ';
      } else {
        var j := i - |a| - 1;
        assert s[i] == b[j] && r[i] == Ucwords(b)[j];
        if j > 0 {
          assert s[i - 1] == b[j - 1];
        } else {
          assert s[i - 1] == ' ';
        }
      }
    }
  }

  /** Without '_' or '-' there is nothing to space out. */
  lemma SpacedUnchanged(s: string)
    requires forall i :: 0 <= i < |s| ==> s[i] != '_' && s[i] != '-'
    ensures Spaced(s) == s
  {
  }

  /** The last segment of a key is what follows its last dot. */
  lemma {:induction false} LastSegmentAfterDot(prefix: string, seg: string)
    requires '.' !in seg
    ensures LastSegment(prefix + "." + seg) == seg
    decreases |seg|
  {
    var key := prefix + "." + seg;
    if |seg| > 0 {
      var init := seg[..|seg| - 1];
      assert key[..|key| - 1] == prefix + "." + init;
      assert key[|key| - 1] == seg[|seg| - 1];
      assert '.' !in init;
      LastSegmentAfterDot(prefix, init);
      assert init + [seg[|seg| - 1]] == seg;
    } else {
      assert key[|key| - 1] == '.';
    }
  }

  /** What the fallback text is: the key's last segment, with '_' and '-'
      turned into spaces, no word starting with a lower-case letter, and
      every character that does not start a word left as it was (camelCase is
      not split). */
  lemma PlainTextShape(key: string)
    ensures var seg := LastSegment(key); var r := ExtractPlainText(key);
      && |r| == |seg|
      && '.' !in r && '_' !in r && '-' !in r
      && (forall i :: 0 <= i < |r| ==> Lower(r[i]) == Lower(Spaced(seg)[i]))
      && (forall i :: 0 <= i < |r| && WordStart(r, i) ==> !IsAsciiLower(r[i]))
      && (forall i :: 0 <= i < |r| && !WordStart(r, i) ==> r[i] == Spaced(seg)[i])
  {
    var seg := LastSegment(key);
    var sp := Spaced(seg);
    var r := Ucwords(sp);
    UcwordsShape(sp);
    forall i | 0 <= i < |r| ensures r[i] != '.' && r[i] != '_' && r[i] != '-' {
      assert seg[i] != '.';
      assert sp[i] != '.' && sp[i] != '_' && sp[i] != '-';
    }
  }

  /** Readable text stays as it is: the fallback applied to its own output
      gives the same text. */
  lemma PlainTextIdempotent(key: string)
    ensures ExtractPlainText(ExtractPlainText(key)) == ExtractPlainText(key)
  {
    var r := ExtractPlainText(key);
    PlainTextShape(key);
    NoDotSegment(r);
    var sp := Spaced(r);
    assert sp == r;
    var rr := Ucwords(sp);
    forall i | 0 <= i < |r| ensures rr[i] == r[i] {
      if WordStart(r, i) {
        assert !IsAsciiLower(r[i]);
      }
    }
  }

  /** A string without '.' is its own last segment. */
  lemma {:induction false} NoDotSegment(s: string)
    requires '.' !in s
    ensures LastSegment(s) == s
    decreases |s|
  {
    if |s| > 0 {
      assert '.' !in s[..|s| - 1];
      NoDotSegment(s[..|s| - 1]);
      assert s[..|s| - 1] + [s[|s| - 1]] == s;
    }
  }

  /** The three examples in the documentation of extractPlainText(). */
  lemma DocumentedExamples()
    ensures ExtractPlainText("contact.field.name") == "Name"
    ensures ExtractPlainText("contact.submit") == "Submit"
    ensures ExtractPlainText("your_custom_label") == "Your Custom Label"
  {
    FieldNameWords();
    PlainTextOfWord("contact.field", "name");
    SubmitWords();
    PlainTextOfWord("contact", "submit");
    NoDotSegment("your_custom_label");
    SnakeCaseSpaced();
    SnakeCaseUcwords();
  }

  lemma FieldNameWords()
    ensures "contact.field.name" == "contact.field" + "." + "name"
    ensures PlainWord("name") && Capitalized("name") == "Name"
  {
  }

  lemma SubmitWords()
    ensures "contact.submit" == "contact" + "." + "submit"
    ensures PlainWord("submit") && Capitalized("submit") == "Submit"
  {
  }

  lemma SnakeCaseSpaced()
    ensures Spaced("your_custom_label") == "your custom label"
  {
    var sp := Spaced("your_custom_label");
    forall i | 0 <= i < 17 ensures sp[i] == "your custom label"[i] {
      if i == 0 {
      } else if i == 1 {
      } else if i == 2 {
      } else if i == 3 {
      } else if i == 4 {
      } else if i == 5 {
      } else if i == 6 {
      } else if i == 7 {
      } else if i == 8 {
      } else if i == 9 {
      } else if i == 10 {
      } else if i == 11 {
      } else if i == 12 {
      } else if i == 13 {
      } else if i == 14 {
      } else if i == 15 {
      } else if i == 16 {
      }
    }
  }

  lemma SnakeCaseUcwords()
    ensures Ucwords("your custom label") == "Your Custom Label"
  {
    SnakeCaseWords();
    SnakeCaseCapitals();
    UcwordsThree("your", "custom", "label");
  }

  lemma SnakeCaseWords()
    ensures "your custom label" == "your" + " " + ("custom" + " " + "label")
    ensures PlainWord("your") && PlainWord("custom") && PlainWord("label")
  {
  }

  lemma SnakeCaseCapitals()
    ensures Capitalized("your") + " " + (Capitalized("custom") + " " + Capitalized("label")) == "Your Custom Label"
  {
    assert Capitalized("your") == "Your" && Capitalized("custom") == "Custom" && Capitalized("label") == "Label";
  }

  lemma CamelCaseWord()
    ensures PlainWord("camelCase") && Capitalized("camelCase") == "CamelCase"
  {
  }

  lemma ExampleCamelCase()
    ensures ExtractPlainText("camelCase") == "CamelCase"
  {
    CamelCaseWord();
    PlainTextOfBareWord("camelCase");
  }

  // ---------------------------------------------------------------------
  // The extension

  /** What a call to the translator does: returns a string or throws. */
  datatype Outcome = Translated(s: string) | Threw

  /** The translator service: `trans(key, parameters, domain)`. */
  datatype Translator = Translator(trans: (string, Fields, string) -> Outcome)

  /** The extension with its configuration arrays and optional translator. */
  datatype ContactUsExtension = ContactUsExtension(
    templates: Fields, design: Fields, translation: Fields, translator: Option<Translator>)
  {
    /** The flag the constructor computes: `translation.enabled` 'true'
        forces translation on and 'false' off; 'auto', any other value and a
        missing key mean "a translator is present". */
    function TranslationEnabled(): (enabled: bool)
      ensures Lookup(translation, "enabled") == Some(VStr("true")) ==> enabled
      ensures Lookup(translation, "enabled") == Some(VStr("false")) ==> !enabled
      ensures Lookup(translation, "enabled") !in {Some(VStr("true")), Some(VStr("false"))} ==>
        (enabled <==> translator.Some?)
    {
      match Coalesce(Lookup(translation, "enabled"), VStr("auto"))
      case VStr(s) =>
        if s == "true" then true
        else if s == "false" then false
        else translator.Some?
      case _ => translator.Some?
    }

    /** `$domain ?: $this->translation['domain']`, as a string. */
    function EffectiveDomain(domain: Option<string>): (d: string)
      ensures domain.Some? && Truthy(VStr(domain.value)) ==> d == domain.value
      ensures !(domain.Some? && Truthy(VStr(domain.value))) ==> d == ToStr(Get(translation, "domain"))
    {
      match domain
      case Some(s) => if Truthy(VStr(s)) then s else ToStr(Get(translation, "domain"))
      case None => ToStr(Get(translation, "domain"))
    }

    /** translate(): the translator's answer when translation is on and the
        answer differs from the key; the plain-text fallback otherwise. */
    function Translate(key: string, parameters: Fields, domain: Option<string>): (r: string)
      ensures !TranslationEnabled() || translator.None? ==> r == ExtractPlainText(key)
      ensures TranslationEnabled() && translator.Some? ==>
        match translator.value.trans(key, parameters, EffectiveDomain(domain))
        case Translated(t) => r == (if t == key then ExtractPlainText(key) else t)
        case Threw => r == ExtractPlainText(key)
    {
      if !TranslationEnabled() || translator.None? then ExtractPlainText(key)
      else
        match translator.value.trans(key, parameters, EffectiveDomain(domain))
        case Translated(t) => if t == key then ExtractPlainText(key) else t
        case Threw => ExtractPlainText(key)
    }

    /** The template globals: one `contact_us_config` array of the
        templates, the design and the translation settings, in that order. */
    function GetGlobals(): (g: Fields)
      ensures |g| == 1 && g[0].0 == "contact_us_config" && g[0].1.VArr?
      ensures var config := g[0].1.entries;
        && |config| == 3 && config[0].0 == "templates" && config[1].0 == "design" && config[2].0 == "translation"
        && config[2].1.VArr? && |config[2].1.entries| == 2
        && config[2].1.entries[0].0 == "enabled" && config[2].1.entries[1].0 == "domain"
    {
      [("contact_us_config", VArr([
        ("templates", VArr(templates)),
        ("design", VArr(design)),
        ("translation", VArr([
          ("enabled", VBool(TranslationEnabled())),
          ("domain", Coalesce(Lookup(translation, "domain"), VStr(DefaultDomain)))]))]))]
    }
  }

  /** The globals expose the templates and design unchanged, the effective
      flag as a boolean, and the configured domain or 'contact_us' when it is
      missing or null. */
  lemma GlobalsExposeConfig(x: ContactUsExtension)
    ensures var config := x.GetGlobals()[0].1.entries;
      && config[0].1 == VArr(x.templates)
      && config[1].1 == VArr(x.design)
      && config[2].1.entries[0].1 == VBool(x.TranslationEnabled())
      && (Lookup(x.translation, "domain") in {None, Some(VNull)} ==> config[2].1.entries[1].1 == VStr("contact_us"))
      && (forall v :: Lookup(x.translation, "domain") == Some(v) && v != VNull ==> config[2].1.entries[1].1 == v)
  {
  }

  /** The filter never hands back the raw key unless the key already reads
      as its own plain text: an answer equal to the key is replaced. */
  lemma NeverEchoesKey(x: ContactUsExtension, key: string, parameters: Fields, domain: Option<string>)
    ensures x.Translate(key, parameters, domain) == key ==> ExtractPlainText(key) == key
  {
  }

  /** Without a translator the filter always falls back, whatever the flag says. */
  lemma NoTranslatorFallsBack(x: ContactUsExtension, key: string, parameters: Fields, domain: Option<string>)
    requires x.translator.None?
    ensures x.Translate(key, parameters, domain) == ExtractPlainText(key)
  {
  }
}
