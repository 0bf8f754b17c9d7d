/**
 * Derivation of a component's default name from its class path
 * (`Component::generateName`): an explicit registry alias wins; otherwise the
 * class path is normalised into kebab-cased, dot-separated segments and the
 * configured class namespace, normalised the same way, is stripped off the
 * front together with the one character that follows it.
 */
module Naming {
  import opened PhpValues
  import opened Text

  /**
   * What the derivation reads from outside the component: the registry's
   * alias table (class path to alias), the `livewire.class_namespace`
   * setting, and the kebab-casing helper applied to each segment.
   */
  datatype Config = Config(
    aliases: map<string, Value>,
    classNamespace: string,
    kebab: string -> string)

  /** The registry's answer for `cls`: its alias, or null when it has none. */
  function AliasOf(cfg: Config, cls: string): Value {
    if cls in cfg.aliases then cfg.aliases[cls] else Null
  }

  /** Applies `f` to every segment, keeping their order and number. */
  function MapSegments(f: string -> string, parts: seq<string>): (r: seq<string>)
    ensures |r| == |parts|
    ensures forall i :: 0 <= i < |parts| ==> r[i] == f(parts[i])
  {
    seq(|parts|, i requires 0 <= i < |parts| => f(parts[i]))
  }

  /** The segments of a path once separators are read as dots. */
  function Segments(path: string): (r: seq<string>)
    ensures |r| >= 1
    ensures Undelimited(r, '.')
  {
    Split(DotSeparators(path), '.')
  }

  /**
   * The normalisation pipeline shared by the class path and the namespace:
   * separators to dots, explode on dots, kebab each segment, implode on dots.
   */
  function Normalize(path: string, kebab: string -> string): string {
    Join(MapSegments(kebab, Segments(path)), '.')
  }

  /** True when the kebab helper never introduces a dot into a dot-free segment. */
  ghost predicate KeepsDotsOut(kebab: string -> string) {
    forall x :: '.' !in x ==> '.' !in kebab(x)
  }

  /**
   * When the kebab helper adds no dots, the normalised path has exactly one
   * segment per segment of the dotted input, each being that input segment
   * kebab-cased.
   */
  lemma NormalizeSegments(path: string, kebab: string -> string)
    requires KeepsDotsOut(kebab)
    ensures Split(Normalize(path, kebab), '.') == MapSegments(kebab, Segments(path))
    ensures |Split(Normalize(path, kebab), '.')| == |Segments(path)|
  {
    var parts := MapSegments(kebab, Segments(path));
    assert Undelimited(parts, '.') by {
      forall i | 0 <= i < |parts|
        ensures '.' !in parts[i]
      {
        assert '.' !in Segments(path)[i];
      }
    }
    SplitJoin(parts, '.');
  }

  /** With an identity kebab helper, normalising only turns separators into dots. */
  lemma NormalizeIdentity(path: string)
    ensures Normalize(path, x => x) == DotSeparators(path)
  {
    var parts := Segments(path);
    assert MapSegments(x => x, parts) == parts;
  }

  /**
   * The namespace-stripping step: when `fullName` starts with `namespace`
   * (an empty namespace never matches), the first `|namespace| + 1`
   * characters are dropped, whatever the character after the namespace is;
   * otherwise `fullName` is kept whole.
   */
  function StripNamespace(fullName: string, namespace: string): (r: string)
    ensures StartsWith(fullName, namespace) && |fullName| > |namespace| ==>
      fullName == namespace + [fullName[|namespace|]] + r
    ensures StartsWith(fullName, namespace) && |fullName| == |namespace| ==> r == ""
    ensures !StartsWith(fullName, namespace) ==> r == fullName
  {
    if StartsWith(fullName, namespace) then
      var r := Substr(fullName, |namespace| + 1);
      assert |fullName| > |namespace| ==>
        fullName == fullName[..|namespace|] + [fullName[|namespace|]] + fullName[|namespace| + 1..];
      r
    else fullName
  }

  /**
   * No dot is required after the namespace: the namespace "app" eats the
   * "l" of "application.foo" as if it were the separator.
   */
  lemma StripIgnoresSeparator()
    ensures StripNamespace("application.foo", "app") == "ication.foo"
  {
  }

  /**
   * `generateName`: the class's registry alias when it is truthy, returned
   * verbatim; otherwise the normalised class path with the normalised
   * namespace stripped off its front.
   */
  function GenerateName(cls: string, cfg: Config): (r: Value)
    ensures Truthy(AliasOf(cfg, cls)) ==> r == AliasOf(cfg, cls)
    ensures !Truthy(AliasOf(cfg, cls)) ==> r.Str?
    ensures !Truthy(AliasOf(cfg, cls)) ==>
      var fullName := Normalize(cls, cfg.kebab);
      var namespace := Normalize(cfg.classNamespace, cfg.kebab);
      && (StartsWith(fullName, namespace) && |fullName| > |namespace| ==>
            fullName == namespace + [fullName[|namespace|]] + r.s)
      && (StartsWith(fullName, namespace) && |fullName| == |namespace| ==> r.s == "")
      && (!StartsWith(fullName, namespace) ==> r.s == fullName)
  {
    var alias := AliasOf(cfg, cls);
    if Truthy(alias) then alias
    else
      var namespace := Normalize(cfg.classNamespace, cfg.kebab);
      var fullName := Normalize(cls, cfg.kebab);
      Str(StripNamespace(fullName, namespace))
  }

  /**
   * Normalising `prefix`, separator, `rest` gives the normalised prefix and
   * the normalised rest joined by one dot.
   */
  lemma NormalizeAppend(prefix: string, sep: char, rest: string, kebab: string -> string)
    requires IsPathSeparator(sep) || sep == '.'
    ensures Normalize(prefix + [sep] + rest, kebab) == Normalize(prefix, kebab) + "." + Normalize(rest, kebab)
  {
    assert DotSeparators(prefix + [sep] + rest) == DotSeparators(prefix) + "." + DotSeparators(rest);
    SplitAppend(DotSeparators(prefix), DotSeparators(rest), '.');
    var p := Segments(prefix);
    var q := Segments(rest);
    assert MapSegments(kebab, p + q) == MapSegments(kebab, p) + MapSegments(kebab, q);
    JoinAppend(MapSegments(kebab, p), MapSegments(kebab, q), '.');
  }

  /**
   * A class that lives under the configured namespace and has no truthy
   * alias is named by its path relative to the namespace, normalised. For
   * example `App\Http\Livewire\Admin\UserIndex` under `App\Http\Livewire`
   * becomes the normalised `Admin\UserIndex`.
   */
  lemma NameInsideNamespace(rest: string, sep: char, cfg: Config)
    requires IsPathSeparator(sep) || sep == '.'
    requires !Truthy(AliasOf(cfg, cfg.classNamespace + [sep] + rest))
    requires Normalize(cfg.classNamespace, cfg.kebab) != ""
    ensures GenerateName(cfg.classNamespace + [sep] + rest, cfg) == Str(Normalize(rest, cfg.kebab))
  {
    var namespace := Normalize(cfg.classNamespace, cfg.kebab);
    var fullName := Normalize(cfg.classNamespace + [sep] + rest, cfg.kebab);
    NormalizeAppend(cfg.classNamespace, sep, rest, cfg.kebab);
    assert fullName[..|namespace|] == namespace;
    assert fullName[|namespace| + 1..] == Normalize(rest, cfg.kebab);
  }

  /**
   * With the default empty namespace (and a kebab helper that maps "" to
   * "", as Laravel's does) nothing is stripped: the name is the whole
   * normalised class path.
   */
  lemma EmptyNamespaceKeepsFullName(cls: string, cfg: Config)
    requires cfg.classNamespace == ""
    requires cfg.kebab("") == ""
    requires !Truthy(AliasOf(cfg, cls))
    ensures GenerateName(cls, cfg) == Str(Normalize(cls, cfg.kebab))
  {
  }

  /**
   * A truthy alias decides the name by itself: changing the namespace or
   * the kebab helper does not change the result.
   */
  lemma AliasShortCircuits(cls: string, cfg: Config, namespace: string, kebab: string -> string)
    requires Truthy(AliasOf(cfg, cls))
    ensures GenerateName(cls, cfg) == GenerateName(cls, cfg.(classNamespace := namespace, kebab := kebab))
    ensures GenerateName(cls, cfg) == AliasOf(cfg, cls)
  {
  }
}
