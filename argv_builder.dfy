/** The builder of src/Optionally.php: the same fluent editing of option
    records, but every hyphenated name also brings its underscore and
    camelCase spellings as aliases, and `argv()` builds the tokenizer's spec
    strings and the option map itself, tokenizes with unknown options
    skipped, and hands the result to the `Options` container. */
module ArgvBuilder {
  import opened Php
  import opened Getopt
  import opened Naming
  import opened Declare
  import opened Resolver
  import Builder

  /** `$optionTemplate` */
  function Template(): Record {
    map["aliases" := Arr([]), "required" := Bool(false), "ifNull" := Str(""), "boolean" := Bool(false),
        "callback" := Null, "filter" := Null, "filterValue" := Null, "defaults" := Null,
        "examples" := Null, "ifMissing" := Null, "value" := Bool(false), "optionalValue" := Bool(false),
        "argName" := Str("")]
  }

  /** `boolean()`, `required()`, `optional()`, `value($v)`, `defaults($v)`,
      `defaultsIfMissing($v)`, `requiredIfNull($name)`, `test($f, $d)`, `examples($e)`. */
  datatype Modifier =
    | Boolean
    | Required
    | Optional
    | SetValue(v: Value)
    | Defaults(v: Value)
    | DefaultsIfMissing(v: Value)
    | RequiredIfNull(name: string)
    | Test(filter: Value, failure: Value)
    | Examples(v: Value)

  function Modify(m: Modifier, r: Record): Record {
    match m
    case Boolean => r["boolean" := Bool(true)]["required" := Bool(false)]
    case Required => r["required" := Bool(true)]["boolean" := Bool(false)]
    case Optional => r["optionalValue" := Bool(true)]
    case SetValue(v) =>
      if v != Null then r["value" := Bool(true)]["defaults" := v]["ifMissing" := v]
      else r["value" := Bool(true)]
    case Defaults(v) => r["defaults" := v]
    case DefaultsIfMissing(v) => r["ifMissing" := v]
    case RequiredIfNull(name) => r["ifNull" := Str(name)]
    case Test(filter, failure) => r["filter" := filter]["filterFailure" := failure]
    case Examples(v) => r["examples" := v]
  }

  /** `boolean()` clears required and `required()` clears boolean;
      `value($v)` marks the option as taking a value and, for a value other
      than null, makes it the defaults and the ifMissing value; `test` stores
      the filter and its failure value. */
  lemma FlagRules(r: Record, v: Value, f: Value, d: Value)
    ensures var b := Modify(Boolean, r);
      IsTrue(b, "boolean") && Field(b, "required") == Bool(false)
    ensures var q := Modify(Required, r);
      IsTrue(q, "required") && Field(q, "boolean") == Bool(false)
    ensures var w := Modify(SetValue(v), r);
      && IsTrue(w, "value")
      && (v != Null ==> Field(w, "defaults") == v && Field(w, "ifMissing") == v)
      && (v == Null ==> Field(w, "defaults") == Field(r, "defaults") && Field(w, "ifMissing") == Field(r, "ifMissing"))
    ensures var t := Modify(Test(f, d), r);
      Field(t, "filter") == f && Field(t, "filterFailure") == d
  {
  }

  /** An option is never both boolean and required. */
  predicate NotBooleanAndRequired(r: Record) {
    !(IsTrue(r, "boolean") && IsTrue(r, "required"))
  }

  /** Every modifier keeps an option from being both boolean and required. */
  lemma ModifyKeepsExclusive(m: Modifier, r: Record)
    requires NotBooleanAndRequired(r)
    ensures NotBooleanAndRequired(Modify(m, r))
  {
    match m {
      case Boolean =>
      case Required =>
      case _ =>
        assert Field(Modify(m, r), "boolean") == Field(r, "boolean");
        assert Field(Modify(m, r), "required") == Field(r, "required");
    }
  }

  /** `array_merge($r['aliases'], mangle($name))`, done only when there are spellings. */
  function WithSpellings(r: Record, name: string): Record {
    var spellings := Mangle(name);
    if spellings == [] then r
    else
      var cur := Field(r, "aliases");
      r["aliases" := if cur.Arr? then Arr(cur.items + AsValues(spellings)) else Null]
  }

  /** `$option['aliases'][] = $alias`, then its spellings. Appending to null
      or `false` starts a new list. On a number or `true` PHP 5 and 7 only
      warn and keep the value, as here. A string or a callable, on which PHP
      raises an Error, is also left as it was. */
  function AddAlias(r: Record, alias: string): Record {
    var cur := Field(r, "aliases");
    var appended :=
      match cur
      case Arr(items) => r["aliases" := Arr(items + [Str(alias)])]
      case Null => r["aliases" := Arr([Str(alias)])]
      case Bool(b) => if b then r else r["aliases" := Arr([Str(alias)])]
      case _ => r;
    WithSpellings(appended, alias)
  }

  /** `alias($a)` lists `a` and then the underscore and camelCase spellings
      of a hyphenated `a` after the aliases already there. */
  lemma AddAliasSpellings(r: Record, alias: string)
    requires Field(r, "aliases").Arr?
    ensures Aliases(AddAlias(r, alias)) == Aliases(r) + [alias] + Mangle(alias)
    ensures '-' in alias ==> Aliases(AddAlias(r, alias)) == Aliases(r) + [alias, MapChar(alias, '-', '_'), Mangle(alias)[1]]
  {
    AddAliasList(r, alias);
    if '-' in alias {
      MangleCount(alias);
      UnderscoreSpelling(alias);
      assert [alias] + Mangle(alias) == [alias, MapChar(alias, '-', '_'), Mangle(alias)[1]];
    }
  }

  /** On a number or `true` in `aliases` the append changes nothing, and the
      spellings of a hyphenated alias then make the field null, as
      `array_merge` on a non-array does. */
  lemma AddAliasOnScalar(r: Record, alias: string)
    requires Field(r, "aliases").Int? || Field(r, "aliases") == Bool(true)
    ensures AddAlias(r, alias) == if '-' in alias then r["aliases" := Null] else r
  {
    MangleCount(alias);
  }

  /** On a record with no aliases yet (null, or the `false` that settings may
      leave), `alias(a)` starts the list with `a` and its spellings. */
  lemma AddAliasFirst(r: Record, alias: string)
    requires Field(r, "aliases") == Null || Field(r, "aliases") == Bool(false)
    ensures Field(AddAlias(r, alias), "aliases").Arr?
    ensures Aliases(AddAlias(r, alias)) == [alias] + Mangle(alias)
  {
    var r0 := r["aliases" := Arr([])];
    assert Field(r0, "aliases").Arr? && Aliases(r0) == [];
    AddAliasList(r0, alias);
    assert [] + [Str(alias)] == [Str(alias)];
    assert r["aliases" := Arr([Str(alias)])] == r0["aliases" := Arr([] + [Str(alias)])];
  }

  lemma AddAliasList(r: Record, alias: string)
    requires Field(r, "aliases").Arr?
    ensures Aliases(AddAlias(r, alias)) == Aliases(r) + [alias] + Mangle(alias)
  {
    var items := Field(r, "aliases").items;
    var one := items + [Str(alias)];
    StringsOfAppend(items, [Str(alias)]);
    assert StringsOf([Str(alias)]) == [alias] by {
      assert [Str(alias)][1..] == [];
    }
    if Mangle(alias) != [] {
      StringsOfAppend(one, AsValues(Mangle(alias)));
      StringsOfAsValues(Mangle(alias));
    }
  }

  /** The records after `option($name, $settings)`: as in the other
      builders, then the spellings of a hyphenated name join its aliases. */
  function Declared(options: OMap<Record>, name: string, settings: Record): OMap<Record> {
    var o := if name in options.m then options else options.Put(name, Template());
    var o' := if settings != map[] then o.Put(name, Template() + settings) else o;
    if Mangle(name) != [] then o'.Put(name, WithSpellings(o'.m[name], name)) else o'
  }

  /** A new hyphenated name is declared with its two spellings as its only aliases. */
  lemma DeclaredNewSpellings(options: OMap<Record>, name: string)
    requires name !in options.m && '-' in name
    ensures var r := Declared(options, name, map[]);
      name in r.m && Aliases(r.m[name]) == Mangle(name) && Aliases(r.m[name]) == [MapChar(name, '-', '_'), Mangle(name)[1]]
  {
    MangleCount(name);
    UnderscoreSpelling(name);
    StringsOfAsValues(Mangle(name));
    assert [] + AsValues(Mangle(name)) == AsValues(Mangle(name));
  }

  /** Why `argv()` fails: the tokenizer's exception or the container's. */
  datatype ArgvError = Parse(parseError: GetoptError) | Resolution(resolveError: ResolveError)

  /** What `argv()` computes: the spec strings and option map from the
      records, the tokenizer with `skip_unknown` set, then the resolved values
      and the positionals. The file's namespace makes `new Options` the
      container of Options.class.php, which reads names back by exact key. */
  function Run(rev: Revision, args: seq<string>, options: OMap<Record>, apply: (Value, Value) -> Value)
    : Result<(OMap<Value>, seq<string>), ArgvError>
  {
    var ds := DeclsOf(options.keys, options.m);
    match Tokenize(rev, 2, args, ShortSpec(ds), LongSpec(ds), true)
    case Err(e) => Err(Parse(e))
    case Ok(p) =>
      match Resolve(p, options.m, OptionMapOf(options.keys, options.m, EmptyMap()), Exact, apply)
      case Err(e) => Err(Resolution(e))
      case Ok(v) => Ok((v, p.nonOpts))
  }

  /** The members `__get` treats as known: the class's methods and properties. */
  const Members: set<string> := {
    "options", "__construct", "__get", "alias", "argv", "boolean", "callback", "defaults",
    "defaultsIfMissing", "describe", "examples", "option", "optional", "required", "requiredIfNull",
    "test", "usage", "value", "fireCallback", "getLastOption", "getSuffixForOption", "mangle",
    "args", "getopt", "lastOption", "optionTemplate", "scriptExamples", "scriptName", "help"}

  /** `__get($name)`: MissingArgvException for a name that is neither a method
      nor a property; an option's value can only be read from what `argv()`
      returns. */
  function MagicGet(name: string): (r: Result<Value, string>)
    ensures r.Err? <==> name !in Members
  {
    if name in Members then Ok(Null) else Err(name)
  }

  /** No member name contains `-`, so reading a hyphenated option name from
      the builder always throws. */
  lemma HyphenatedNameThrows(name: string)
    requires '-' in name
    ensures MagicGet(name).Err?
  {
    assert forall m :: m in Members ==> '-' !in m;
  }

  /** The builder of src/Optionally.php. */
  class Optionally {
    var args: seq<string>
    var options: OMap<Record>
    var lastOption: string

    /** `new Optionally($args)`: an empty list falls back on the process's
        argv; the first element is dropped. */
    constructor (given: seq<string>, serverArgv: seq<string>)
      ensures args == Builder.ScriptArguments(given, serverArgv)
      ensures options.Valid() && options.keys == [] && lastOption == ""
    {
      args := Builder.ScriptArguments(given, serverArgv);
      options := EmptyMap();
      lastOption := "";
    }

    /** `option($name, $settings)` */
    method Option(name: string, settings: Record)
      requires options.Valid()
      modifies this
      ensures options.Valid()
      ensures lastOption == name && options == Declared(old(options), name, settings) && args == old(args)
    {
      lastOption := name;
      if name !in options.m {
        options := options.Put(name, Template());
      }
      if settings != map[] {
        options := options.Put(name, Template() + settings);
      }
      var mangled := Mangle(name);
      if mangled != [] {
        options := options.Put(name, WithSpellings(options.m[name], name));
      }
    }

    /** A modifier on the record of the option named last. */
    method Apply(m: Modifier)
      requires options.Valid()
      modifies this
      ensures options.Valid()
      ensures options == old(options).Put(lastOption, Modify(m, RecordAt(old(options.m), lastOption)))
      ensures lastOption == old(lastOption) && args == old(args)
    {
      options := options.Put(lastOption, Modify(m, RecordAt(options.m, lastOption)));
    }

    /** `alias($alias)` */
    method Alias(alias: string)
      requires options.Valid()
      modifies this
      ensures options.Valid()
      ensures options == old(options).Put(lastOption, AddAlias(RecordAt(old(options.m), lastOption), alias))
      ensures lastOption == old(lastOption) && args == old(args)
    {
      options := options.Put(lastOption, AddAlias(RecordAt(options.m, lastOption), alias));
    }

    /** `argv()`: a new container, or the exception that stops it. */
    method Argv(rev: Revision, apply: (Value, Value) -> Value) returns (r: Result<Options, ArgvError>)
      ensures r.Ok? <==> Run(rev, args, options, apply).Ok?
      ensures r.Ok? ==> (fresh(r.value) && r.value.values == Run(rev, args, options, apply).value.0
                         && r.value.positionals == Run(rev, args, options, apply).value.1
                         && r.value.lookup == Exact)
      ensures r.Err? ==> r.error == Run(rev, args, options, apply).error
    {
      var shortOpts, longOpts, optionMap := BuildSpec(options);
      var parsed := Getopt2(rev, args, shortOpts, longOpts, true);
      if parsed.Err? {
        return Err(Parse(parsed.error));
      }
      var o := NewOptions(parsed.value, options.m, optionMap, Exact, apply);
      if o.Err? {
        return Err(Resolution(o.error));
      }
      return Ok(o.value);
    }
  }
}
