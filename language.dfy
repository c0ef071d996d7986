/**
 * The language provider: the current language, its persisted copy in the
 * browser's storage, and the translation function `t`, which walks the
 * current language's table along the dot-separated segments of a key.
 */
module LanguageProvider {
  import opened Optional
  import opened Text

  datatype Language = En | Ko

  /** The string a language is stored and looked up under. */
  function Code(language: Language): string {
    match language
    case En => "en"
    case Ko => "ko"
  }

  /**
   * The restore step's acceptance test on the stored value: only the two
   * known codes are taken, anything else (absent, empty, another code) is not.
   */
  function ParseSaved(saved: Option<string>): (language: Option<Language>)
    ensures language.Some? <==> saved.Some? && (saved.value == "en" || saved.value == "ko")
    ensures language.Some? ==> Code(language.value) == saved.value
  {
    if saved == Some("en") then Some(En)
    else if saved == Some("ko") then Some(Ko)
    else None
  }

  /** What `SetLanguage` stores is what the restore step gives back. */
  lemma ParseCode(language: Language)
    ensures ParseSaved(Some(Code(language))) == Some(language)
  {
  }

  // ---------------------------------------------------------------------------
  // Translation tables

  /** A translation table: a string, or an object mapping segment names to tables. */
  datatype Node = Leaf(text: string) | Branch(children: map<string, Node>)

  /** The `translations` object: one table per language. */
  datatype Translations = Translations(en: Node, ko: Node)

  function Table(translations: Translations, language: Language): Node {
    match language
    case En => translations.en
    case Ko => translations.ko
  }

  /**
   * `value?.[k]`, with `None` standing for `undefined`: an object yields its
   * member, and anything else (undefined, a string) yields undefined.
   */
  function Step(value: Option<Node>, k: string): (next: Option<Node>)
    ensures next.Some? <==> value.Some? && value.value.Branch? && k in value.value.children
    ensures next.Some? ==> next.value == value.value.children[k]
  {
    match value
    case Some(Branch(children)) => if k in children then Some(children[k]) else None
    case _ => None
  }

  /** The value reached from `value` by following `keys` one segment at a time. */
  function Resolve(value: Option<Node>, keys: seq<string>): Option<Node>
    decreases keys
  {
    if keys == [] then value else Resolve(Step(value, keys[0]), keys[1..])
  }

  /** Walking a path in two parts is walking the whole path. */
  lemma {:induction false} ResolveAppend(value: Option<Node>, p: seq<string>, q: seq<string>)
    ensures Resolve(value, p + q) == Resolve(Resolve(value, p), q)
    decreases p
  {
    if p != [] {
      assert (p + q)[0] == p[0] && (p + q)[1..] == p[1..] + q;
      assert Resolve(value, p + q) == Resolve(Step(value, p[0]), p[1..] + q);
      assert Resolve(value, p) == Resolve(Step(value, p[0]), p[1..]);
      ResolveAppend(Step(value, p[0]), p[1..], q);
    } else {
      assert p + q == q;
    }
  }

  /** Once a segment is missing, the rest of the walk stays undefined. */
  lemma {:induction false} ResolveUndefined(keys: seq<string>)
    ensures Resolve(None, keys) == None
  {
    if keys != [] {
      ResolveUndefined(keys[1..]);
    }
  }

  /** A walk that goes on past a string ends undefined. */
  lemma ResolvePastLeaf(text: string, keys: seq<string>)
    requires keys != []
    ensures Resolve(Some(Leaf(text)), keys) == None
  {
    ResolveUndefined(keys[1..]);
  }

  /** A walk reaches something only through objects that hold every segment but the last. */
  lemma {:induction false} ResolvedPathExists(value: Option<Node>, keys: seq<string>)
    requires keys != [] && Resolve(value, keys).Some?
    ensures value.Some? && value.value.Branch? && keys[0] in value.value.children
  {
    if Step(value, keys[0]).None? {
      ResolveUndefined(keys[1..]);
    }
  }

  /**
   * `t(key)` in `language`: the value at the key's dotted path, or the key
   * itself when the path is missing or ends at an empty string. An object
   * at the end of the path is truthy and comes back as it is.
   */
  function Translate(translations: Translations, language: Language, key: string): (r: Node) {
    var value := Resolve(Some(Table(translations, language)), Split(key, '.'));
    if value.None? || value == Some(Leaf("")) then Leaf(key) else value.value
  }

  /** `t` either falls back to the key or returns the non-empty value at the key's path. */
  lemma TranslateCases(translations: Translations, language: Language, key: string)
    ensures var value := Resolve(Some(Table(translations, language)), Split(key, '.'));
      Translate(translations, language, key) == Leaf(key)
      || (value.Some? && value.value != Leaf("") && Translate(translations, language, key) == value.value)
    ensures Translate(translations, language, key) != Leaf("") || key == ""
  {
  }

  /**
   * A non-empty string stored at a path of dot-free segments is what `t`
   * returns for the segments joined with dots.
   */
  lemma TranslateJoinedPath(translations: Translations, language: Language, path: seq<string>, text: string)
    requires |path| >= 1
    requires forall i :: 0 <= i < |path| ==> '.' !in path[i]
    requires Resolve(Some(Table(translations, language)), path) == Some(Leaf(text))
    requires text != ""
    ensures Translate(translations, language, Join(path, '.')) == Leaf(text)
  {
    SplitJoin(path, '.');
  }

  /**
   * A path of dot-free segments that is missing, or ends at an empty string,
   * makes `t` return the segments joined with dots, that is the key itself.
   */
  lemma TranslateJoinedMissing(translations: Translations, language: Language, path: seq<string>)
    requires |path| >= 1
    requires forall i :: 0 <= i < |path| ==> '.' !in path[i]
    requires Resolve(Some(Table(translations, language)), path) in {None, Some(Leaf(""))}
    ensures Translate(translations, language, Join(path, '.')) == Leaf(Join(path, '.'))
  {
    SplitJoin(path, '.');
  }

  /** A key whose first segment is not in the table translates to itself. */
  lemma TranslateUnknownSection(translations: Translations, language: Language, key: string)
    requires Table(translations, language).Branch?
    requires Split(key, '.')[0] !in Table(translations, language).children
    ensures Translate(translations, language, key) == Leaf(key)
  {
    var keys := Split(key, '.');
    assert Step(Some(Table(translations, language)), keys[0]) == None;
    ResolveUndefined(keys[1..]);
  }

  /** A key that runs past a string in the table translates to itself. */
  lemma TranslatePastLeaf(translations: Translations, language: Language, prefix: seq<string>, rest: seq<string>, text: string)
    requires Resolve(Some(Table(translations, language)), prefix) == Some(Leaf(text))
    requires rest != []
    requires |prefix + rest| >= 1 && forall i :: 0 <= i < |prefix + rest| ==> '.' !in (prefix + rest)[i]
    ensures Translate(translations, language, Join(prefix + rest, '.')) == Leaf(Join(prefix + rest, '.'))
  {
    SplitJoin(prefix + rest, '.');
    ResolveAppend(Some(Table(translations, language)), prefix, rest);
    ResolvePastLeaf(text, rest);
  }

  /**
   * A fragment of the shipped tables (the landing title and two navigation
   * labels), with the Korean profile label emptied to exercise the fallback.
   */
  function SampleTranslations(): Translations {
    Translations(
      Branch(map[
        "title" := Leaf("AI Diary"),
        "navigation" := Branch(map["home" := Leaf("Home"), "profile" := Leaf("Profile")])]),
      Branch(map[
        "title" := Leaf("AI \U{C77C}\U{AE30}\U{C7A5}"),
        "navigation" := Branch(map["home" := Leaf("\U{D648}"), "profile" := Leaf("")])]))
  }

  /** On the fragment, a dotted key finds its label in each language. */
  lemma SampleFindsLabels()
    ensures Translate(SampleTranslations(), En, "navigation.home") == Leaf("Home")
    ensures Translate(SampleTranslations(), Ko, "navigation.home") == Leaf("\U{D648}")
  {
    var tr := SampleTranslations();
    var path := ["navigation", "home"];
    assert Join(path, '.') == "navigation.home";
    assert Resolve(Some(tr.en), path) == Some(Leaf("Home")) by {
      assert Resolve(Some(tr.en), path) == Resolve(Step(Some(tr.en), "navigation"), ["home"]);
    }
    assert Resolve(Some(tr.ko), path) == Some(Leaf("\U{D648}")) by {
      assert Resolve(Some(tr.ko), path) == Resolve(Step(Some(tr.ko), "navigation"), ["home"]);
    }
    TranslateJoinedPath(tr, En, path, "Home");
    TranslateJoinedPath(tr, Ko, path, "\U{D648}");
  }

  /** On the fragment, an empty label falls back to the key. */
  lemma SampleEmptyLabel()
    ensures Translate(SampleTranslations(), Ko, "navigation.profile") == Leaf("navigation.profile")
  {
    var tr := SampleTranslations();
    var path := ["navigation", "profile"];
    assert Join(path, '.') == "navigation.profile";
    assert Resolve(Some(tr.ko), path) == Some(Leaf("")) by {
      assert Resolve(Some(tr.ko), path) == Resolve(Step(Some(tr.ko), "navigation"), ["profile"]);
    }
    TranslateJoinedMissing(tr, Ko, path);
  }

  /** On the fragment, an unknown segment falls back to the key. */
  lemma SampleUnknownKey()
    ensures Translate(SampleTranslations(), En, "navigation.settings") == Leaf("navigation.settings")
  {
    var tr := SampleTranslations();
    var path := ["navigation", "settings"];
    assert Join(path, '.') == "navigation.settings";
    assert Resolve(Some(tr.en), path) == None by {
      assert Resolve(Some(tr.en), path) == Resolve(Step(Some(tr.en), "navigation"), ["settings"]);
    }
    TranslateJoinedMissing(tr, En, path);
  }

  /** On the fragment, a key that runs past a label falls back to the key. */
  lemma SamplePastLabel()
    ensures Translate(SampleTranslations(), En, "title.home") == Leaf("title.home")
  {
    var tr := SampleTranslations();
    assert Join(["title", "home"], '.') == "title.home";
    assert Resolve(Some(tr.en), ["title"]) == Some(Leaf("AI Diary")) by {
      assert Resolve(Some(tr.en), ["title"]) == Resolve(Step(Some(tr.en), "title"), []);
    }
    TranslatePastLeaf(tr, En, ["title"], ["home"], "AI Diary");
  }

  // ---------------------------------------------------------------------------
  // The provider's state

  /** The provider: the language in use and the value stored under `'language'`. */
  class LanguageState {
    var language: Language
    var saved: Option<string>

    /** The first render: English, whatever is stored. */
    constructor (stored: Option<string>)
      ensures language == En && saved == stored
    {
      language := En;
      saved := stored;
    }

    /** The mount effect: adopt the stored language if it is one of the two known codes. */
    method RestoreSaved()
      modifies this
      ensures language == (if ParseSaved(old(saved)).Some? then ParseSaved(old(saved)).value else old(language))
      ensures saved == old(saved)
    {
      var parsed := ParseSaved(saved);
      if parsed.Some? {
        language := parsed.value;
      }
    }

    /** `handleSetLanguage`: the state and the stored value both become `lang`. */
    method SetLanguage(lang: Language)
      modifies this
      ensures language == lang && saved == Some(Code(lang))
    {
      language := lang;
      saved := Some(Code(lang));
    }

    /** `t(key)`: walk the current language's table segment by segment. */
    method T(translations: Translations, key: string) returns (r: Node)
      ensures r == Translate(translations, language, key)
    {
      var keys := Split(key, '.');
      var value := Some(Table(translations, language));
      var i := 0;
      while i < |keys|
        invariant 0 <= i <= |keys|
        invariant Resolve(value, keys[i..]) == Resolve(Some(Table(translations, language)), keys)
      {
        assert keys[i..][0] == keys[i] && keys[i..][1..] == keys[i + 1..];
        value := Step(value, keys[i]);
        i := i + 1;
      }
      if value.None? || value == Some(Leaf("")) {
        r := Leaf(key);
      } else {
        r := value.value;
      }
    }
  }

  /** A language chosen in one session is the language a later session restores. */
  method ChooseThenReload(lang: Language, stored: Option<string>) returns (restored: Language)
    ensures restored == lang
  {
    var session := new LanguageState(stored);
    session.SetLanguage(lang);
    var next := new LanguageState(session.saved);
    next.RestoreSaved();
    ParseCode(lang);
    restored := next.language;
  }

  /** A reload with nothing usable stored stays in English. */
  method ReloadWithoutChoice(stored: Option<string>) returns (restored: Language)
    requires stored != Some("en") && stored != Some("ko")
    ensures restored == En
  {
    var session := new LanguageState(stored);
    session.RestoreSaved();
    restored := session.language;
  }
}
