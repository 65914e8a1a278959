/**
  Localised text templates. A `Text` holds the flattened key/value pairs of one
  language file; rendering a key substitutes `{name}` placeholders with
  Markdown-escaped parameter values and then expands emoji templates. `Texts`
  caches one `Text` per language, loading it on first use.
 */
module Texts {
  import opened Wrappers
  import opened Strings
  import opened Markdown

  /** A parsed YAML node: a rendered scalar (possibly null) or a mapping in document order. */
  datatype Yaml = Scalar(value: Option<string>) | Mapping(entries: seq<(string, Yaml)>)

  /** The top-level mapping of a language file. */
  type Document = seq<(string, Yaml)>

  datatype Text = Text(language: Option<string>, values: map<string, string>)

  // ---------------------------------------------------------------------------
  // Loading: hierarchical keys are joined with dots, null becomes "".
  // ---------------------------------------------------------------------------

  /** The pairs `propagate(key, value)` writes, in the order it writes them. */
  function Flatten(key: string, y: Yaml): seq<(string, string)>
    decreases y, 1
  {
    match y
    case Scalar(v) => [(key, v.GetOr(""))]
    case Mapping(es) => FlattenEntries(y, key, es)
  }

  function FlattenEntries(parent: Yaml, key: string, es: seq<(string, Yaml)>): seq<(string, string)>
    requires forall i :: 0 <= i < |es| ==> es[i] < parent
    decreases parent, 0, |es|
  {
    if es == [] then []
    else Flatten(key + "." + es[0].0, es[0].1) + FlattenEntries(parent, key, es[1..])
  }

  /** The pairs written for a whole document: each top-level entry is propagated under its own key. */
  function FlattenDocument(doc: Document): seq<(string, string)> {
    if doc == [] then [] else Flatten(doc[0].0, doc[0].1) + FlattenDocument(doc[1..])
  }

  /** The map built by writing `pairs` one after another: a later write to a key wins. */
  function ToMap(pairs: seq<(string, string)>): (r: map<string, string>)
    ensures forall k :: k in r <==> exists i :: 0 <= i < |pairs| && pairs[i].0 == k
    ensures forall i :: 0 <= i < |pairs| && (forall j :: i < j < |pairs| ==> pairs[j].0 != pairs[i].0) ==>
              pairs[i].0 in r && r[pairs[i].0] == pairs[i].1
  {
    if pairs == [] then map[]
    else
      var init := pairs[..|pairs| - 1];
      var last := pairs[|pairs| - 1];
      var m := ToMap(init);
      assert forall i :: 0 <= i < |init| ==> init[i] == pairs[i];
      m[last.0 := last.1]
  }

  function Load(language: string, doc: Document): Text {
    Text(Some(language), ToMap(FlattenDocument(doc)))
  }

  /** Every key written for `y` under `key` is `key` itself (a scalar) or `key` followed by a dot. */
  lemma {:induction false} FlattenKeys(key: string, y: Yaml)
    ensures y.Scalar? ==> Flatten(key, y) == [(key, y.value.GetOr(""))]
    ensures y.Mapping? ==> forall p :: p in Flatten(key, y) ==> StartsWith(p.0, key + ".")
    decreases y, 1
  {
    if y.Mapping? {
      FlattenEntriesKeys(y, key, y.entries);
    }
  }

  lemma {:induction false} FlattenEntriesKeys(parent: Yaml, key: string, es: seq<(string, Yaml)>)
    requires forall i :: 0 <= i < |es| ==> es[i] < parent
    ensures forall p :: p in FlattenEntries(parent, key, es) ==> StartsWith(p.0, key + ".")
    decreases parent, 0, |es|
  {
    if es != [] {
      var k := key + "." + es[0].0;
      FlattenKeys(k, es[0].1);
      FlattenEntriesKeys(parent, key, es[1..]);
      forall p | p in Flatten(k, es[0].1)
        ensures StartsWith(p.0, key + ".")
      {
        assert StartsWith(p.0, k);
        assert k[..|key + "."|] == key + ".";
      }
    }
  }

  // ---------------------------------------------------------------------------
  // Rendering.
  // ---------------------------------------------------------------------------

  function Placeholder(name: string): (r: string)
    ensures |r| == |name| + 2 && r[0] == '{' && r[|r| - 1] == '}'
  {
    "{" + name + "}"
  }

  /** Folds the parameters over the template, replacing each placeholder by the escaped value. */
  function Substitute(template: string, params: seq<(string, string)>): string
    decreases |params|
  {
    if params == [] then template
    else Substitute(ReplaceAll(template, Placeholder(params[0].0), EscapeMarkdown(Some(params[0].1))), params[1..])
  }

  /**
    `Text.invoke`: a key without a template renders as the escaped key; otherwise
    the template is substituted and emoji templates are expanded by `emoji`.
   */
  function Render(t: Text, key: string, params: seq<(string, string)>, emoji: string -> string): (r: string)
    ensures key !in t.values ==> r == Escape(key)
    ensures key in t.values && '{' !in t.values[key] ==> r == emoji(t.values[key])
  {
    EscapeMarkdownIsPerCharacter(key);
    assert key in t.values && '{' !in t.values[key] ==> Substitute(t.values[key], params) == t.values[key] by {
      if key in t.values && '{' !in t.values[key] {
        SubstituteNoPlaceholders(t.values[key], params);
      }
    }
    if key !in t.values then EscapeMarkdown(Some(key))
    else emoji(Substitute(t.values[key], params))
  }

  /** A text without a `{` is left alone by substitution. */
  lemma {:induction false} ReplaceAllFree(a: string, t: string, pat: string, rep: string)
    requires |pat| > 0 && pat[0] !in a
    ensures ReplaceAll(a + t, pat, rep) == a + ReplaceAll(t, pat, rep)
    decreases |a|
  {
    if |a| == 0 {
      assert a + t == t;
    } else {
      assert (a + t)[0] == a[0];
      assert !StartsWith(a + t, pat);
      assert (a + t)[1..] == a[1..] + t;
      ReplaceAllFree(a[1..], t, pat, rep);
    }
  }

  lemma SubstituteOneStep(a: string, name: string, b: string, rep: string)
    requires '{' !in a && '{' !in b
    ensures ReplaceAll(a + Placeholder(name) + b, Placeholder(name), rep) == a + rep + b
  {
    var pat := Placeholder(name);
    ReplaceAllFree(a, pat + b, pat, rep);
    assert a + pat + b == a + (pat + b);
    StartsWithConcat(pat, b);
    assert (pat + b)[|pat|..] == b;
    ReplaceAllFree(b, [], pat, rep);
    assert b + [] == b;
  }

  /** A template without placeholders renders unchanged whatever the parameters. */
  lemma {:induction false} SubstituteNoPlaceholders(template: string, params: seq<(string, string)>)
    requires '{' !in template
    ensures Substitute(template, params) == template
  {
    if params != [] {
      var pat := Placeholder(params[0].0);
      ReplaceAllFree(template, [], pat, EscapeMarkdown(Some(params[0].1)));
      assert template + [] == template;
      SubstituteNoPlaceholders(template, params[1..]);
    }
  }

  /** One placeholder and one parameter: the placeholder becomes the escaped value. */
  lemma SubstituteSingle(a: string, name: string, b: string, v: string)
    requires '{' !in a && '{' !in b
    ensures Substitute(a + Placeholder(name) + b, [(name, v)]) == a + Escape(v) + b
  {
    SubstituteOneStep(a, name, b, EscapeMarkdown(Some(v)));
    EscapeMarkdownIsPerCharacter(v);
  }

  /**
    A template holding one placeholder, rendered with its one parameter: the
    placeholder becomes the escaped value, then emoji templates are expanded.
   */
  lemma RenderSingle(t: Text, key: string, a: string, name: string, b: string, v: string, emoji: string -> string)
    requires key in t.values && t.values[key] == a + Placeholder(name) + b
    requires '{' !in a && '{' !in b
    ensures Render(t, key, [(name, v)], emoji) == emoji(a + Escape(v) + b)
  {
    SubstituteSingle(a, name, b, v);
  }

  /** In an escaped value every `}` comes right after a backslash. */
  lemma {:induction false} EscapedCloseBrace(v: string)
    ensures forall i :: 0 <= i < |Escape(v)| && Escape(v)[i] == '}' ==> i > 0 && Escape(v)[i - 1] == Backslash
  {
    if |v| > 0 {
      EscapedCloseBrace(v[1..]);
      assert Specials[..|Specials|] == Specials;
      var p := Piece(v[0], |Specials|);
      var e := Escape(v);
      assert e == p + Escape(v[1..]);
      forall i | 0 <= i < |e| && e[i] == '}'
        ensures i > 0 && e[i - 1] == Backslash
      {
        if i >= |p| {
          assert e[i] == Escape(v[1..])[i - |p|];
          if i - |p| == 0 {
            assert false;
          }
          assert e[i - 1] == Escape(v[1..])[i - |p| - 1];
        } else {
          assert v[0] == '}';
          assert '}' in Specials;
        }
      }
    }
  }

  /**
    A substituted value cannot introduce a placeholder: escaping puts a backslash
    before every brace, so `{name}` never occurs in an escaped value unless
    `name` itself ends with a backslash.
   */
  lemma EscapedValueHasNoPlaceholder(v: string, name: string)
    requires |name| == 0 || name[|name| - 1] != Backslash
    ensures forall i: nat :: !OccursAt(Escape(v), Placeholder(name), i)
  {
    var e := Escape(v);
    var pat := Placeholder(name);
    EscapedCloseBrace(v);
    forall i: nat
      ensures !OccursAt(e, pat, i)
    {
      if i + |pat| <= |e| {
        var w := e[i..i + |pat|];
        var last := i + |pat| - 1;
        assert w[|pat| - 1] == e[last];
        if e[last] == '}' {
          assert w[|pat| - 2] == e[last - 1] == Backslash;
          assert pat[|pat| - 2] != Backslash;
        }
      }
    }
  }

  // ---------------------------------------------------------------------------
  // The per-language cache.
  // ---------------------------------------------------------------------------

  datatype TextError = ResourceNotFound(name: string)

  /** The classpath resource holding a language's texts. */
  function ResourceName(language: string): (r: string)
    ensures language == "" ==> r == "/text.yaml"
    ensures language != "" ==> r == "/text_" + Lowercase(language) + ".yaml"
  {
    "/text" + (if |language| > 0 then "_" + Lowercase(language) else "") + ".yaml"
  }

  /** Languages that differ only in letter case share one resource. */
  lemma ResourceNameIgnoresCase(a: string, b: string)
    requires a != "" && b != "" && Lowercase(a) == Lowercase(b)
    ensures ResourceName(a) == ResourceName(b)
  {
  }

  /** `buildText`: loads a language at most once; a missing resource fails. */
  function BuildText(cache: map<string, Text>, language: string, resource: string -> Option<Document>)
    : (r: Result<map<string, Text>, TextError>)
    ensures language in cache ==> r == Ok(cache)
    ensures r.Err? <==> language !in cache && resource(ResourceName(language)).None?
    ensures r.Err? ==> r.error == ResourceNotFound(ResourceName(language))
    ensures r.Ok? ==> language in r.value && r.value.Keys == cache.Keys + {language}
    ensures r.Ok? ==> forall l :: l in cache ==> r.value[l] == cache[l]
    ensures r.Ok? && language !in cache ==> r.value[language] == Load(language, resource(ResourceName(language)).value)
  {
    if language in cache then Ok(cache)
    else
      match resource(ResourceName(language))
      case None => Err(ResourceNotFound(ResourceName(language)))
      case Some(doc) => Ok(cache[language := Load(language, doc)])
  }

  datatype Translation = Translation(text: string, cache: map<string, Text>)

  /** `Texts.invoke` (and `T`): load the language if needed, then render the key. */
  function Translate(cache: map<string, Text>, key: string, language: string, params: seq<(string, string)>,
                     resource: string -> Option<Document>, emoji: string -> string): (r: Result<Translation, TextError>)
    ensures r.Err? <==> BuildText(cache, language, resource).Err?
    ensures r.Ok? ==> r.value.cache == BuildText(cache, language, resource).value
    ensures r.Ok? ==> r.value.text == Render(r.value.cache[language], key, params, emoji)
  {
    var c :- BuildText(cache, language, resource);
    Ok(Translation(Render(c[language], key, params, emoji), c))
  }

  /** A second lookup hits the cache: same text, cache unchanged, the resource not consulted. */
  lemma TranslateIdempotent(cache: map<string, Text>, key: string, language: string, params: seq<(string, string)>,
                            resource: string -> Option<Document>, other: string -> Option<Document>, emoji: string -> string)
    requires Translate(cache, key, language, params, resource, emoji).Ok?
    ensures var first := Translate(cache, key, language, params, resource, emoji).value;
            Translate(first.cache, key, language, params, other, emoji) == Ok(first)
  {
  }
}
