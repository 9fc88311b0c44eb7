/** The fluent builder of src/DESTRealm/Optionally.php: a map of option
    records and an option map, edited through the record of the option named
    last. `option()` selects (and if need be creates) a record; every other
    modifier edits the selected record only. */
module Builder {
  import opened Php
  import opened Getopt
  import opened Declare
  import OptionBuilder

  /** `$optionTemplate` */
  function Template(): Record {
    map["aliases" := Arr([]), "required" := Bool(false), "ifNull" := Str(""), "boolean" := Bool(false),
        "callback" := Null, "filter" := Null, "filterValue" := Null, "defaults" := Null,
        "examples" := Null, "ifMissing" := Null, "optionalValue" := Bool(true), "argName" := Str(""),
        "isArray" := Bool(false), "isCountable" := Bool(false)]
  }

  /** The modifiers that edit the selected record, one per builder method:
      `boolean()`, `required()`, `optional()`, `value($v)`, `defaults($v)`,
      `defaultsIfMissing($v)`, `requiredIfNull($name)`, `test`/`filter`,
      `isArray()`, `isCountable`/`countable`, `examples($e)`. */
  datatype Modifier =
    | Boolean
    | Required
    | Optional
    | SetValue(v: Value)
    | Defaults(v: Value)
    | DefaultsIfMissing(v: Value)
    | RequiredIfNull(name: string)
    | Test(filter: Value, failure: Value)
    | IsArray
    | IsCountable
    | Examples(v: Value)

  function Modify(m: Modifier, r: Record): Record {
    match m
    case Boolean => r["boolean" := Bool(true)]["optionalValue" := Bool(true)]["required" := Bool(false)]
    case Required => r["required" := Bool(true)]["boolean" := Bool(false)]
    case Optional => r["optionalValue" := Bool(true)]["boolean" := Bool(false)]
    case SetValue(v) =>
      if v != Null then r["boolean" := Bool(false)]["defaults" := v]["ifMissing" := v]["optionalValue" := Bool(true)]
      else r["boolean" := Bool(false)]["optionalValue" := Bool(false)]
    case Defaults(v) => r["defaults" := v]
    case DefaultsIfMissing(v) => r["ifMissing" := v]
    case RequiredIfNull(name) => r["ifNull" := Str(name)]
    case Test(filter, failure) => r["filter" := filter]["filterValue" := failure]
    case IsArray => r["isArray" := Bool(true)]
    case IsCountable => r["isCountable" := Bool(true)]
    case Examples(v) => r["examples" := v]
  }

  /** The attributes each modifier writes. */
  function Touches(m: Modifier): set<string> {
    match m
    case Boolean => {"boolean", "optionalValue", "required"}
    case Required => {"required", "boolean"}
    case Optional => {"optionalValue", "boolean"}
    case SetValue(v) => if v != Null then {"boolean", "defaults", "ifMissing", "optionalValue"} else {"boolean", "optionalValue"}
    case Defaults(_) => {"defaults"}
    case DefaultsIfMissing(_) => {"ifMissing"}
    case RequiredIfNull(_) => {"ifNull"}
    case Test(_, _) => {"filter", "filterValue"}
    case IsArray => {"isArray"}
    case IsCountable => {"isCountable"}
    case Examples(_) => {"examples"}
  }

  /** A modifier leaves every attribute it does not write as it was. */
  lemma ModifyTouchesOnly(m: Modifier, r: Record, k: string)
    requires k !in Touches(m)
    ensures (k in Modify(m, r) <==> k in r) && Field(Modify(m, r), k) == Field(r, k)
  {
  }

  /** The flag rules: boolean clears required and makes the value optional,
      required and optional clear boolean, and `value()` always clears
      boolean; `value($v)` with a value sets defaults and ifMissing to it and
      makes the value optional, `value(null)` makes it mandatory. */
  lemma FlagRules(r: Record, v: Value)
    ensures var b := Modify(Boolean, r);
      IsTrue(b, "boolean") && IsTrue(b, "optionalValue") && Field(b, "required") == Bool(false)
    ensures var q := Modify(Required, r);
      IsTrue(q, "required") && Field(q, "boolean") == Bool(false)
    ensures var o := Modify(Optional, r);
      IsTrue(o, "optionalValue") && Field(o, "boolean") == Bool(false)
    ensures var w := Modify(SetValue(v), r);
      && Field(w, "boolean") == Bool(false)
      && (v != Null ==> Field(w, "defaults") == v && Field(w, "ifMissing") == v && IsTrue(w, "optionalValue"))
      && (v == Null ==> Field(w, "optionalValue") == Bool(false))
  {
  }

  /** A boolean option is never required and never demands a value. */
  predicate FlagsConsistent(r: Record) {
    IsTrue(r, "boolean") ==> !IsTrue(r, "required") && IsTrue(r, "optionalValue")
  }

  lemma TemplateConsistent()
    ensures FlagsConsistent(Template())
  {
  }

  /** Every modifier keeps the flags consistent. */
  lemma ModifyKeepsConsistent(m: Modifier, r: Record)
    requires FlagsConsistent(r)
    ensures FlagsConsistent(Modify(m, r))
  {
    if m !in {Boolean, Required, Optional} && !m.SetValue? {
      ModifyTouchesOnly(m, r, "boolean");
      ModifyTouchesOnly(m, r, "required");
      ModifyTouchesOnly(m, r, "optionalValue");
    }
  }

  /** Settings passed to `option()` are merged as given, so they can declare
      an option both boolean and required. */
  lemma SettingsMayBreakFlags()
    ensures !FlagsConsistent(Template() + map["boolean" := Bool(true), "required" := Bool(true)])
  {
    var r := Template() + map["boolean" := Bool(true), "required" := Bool(true)];
    assert r["boolean"] == Bool(true) && r["required"] == Bool(true);
  }

  /** `array_merge($this->optionTemplate, $settings)`: a setting overrides the template's attribute. */
  function Merged(settings: Record): Record {
    Template() + settings
  }

  /** The records after `option($name, $settings)`. */
  function Declared(options: OMap<Record>, name: string, settings: Record): OMap<Record> {
    var o := if name in options.m then options else options.Put(name, Template());
    if settings != map[] then o.Put(name, Merged(settings)) else o
  }

  /** A new name gets the template; a known name keeps its record, modifiers
      included, unless settings are given, which replace the whole record by
      the template merged with them; other records are left alone. */
  lemma DeclaredSpec(options: OMap<Record>, name: string, settings: Record)
    ensures var r := Declared(options, name, settings);
      && name in r.m
      && (settings == map[] && name in options.m ==> r.m[name] == options.m[name])
      && (settings == map[] && name !in options.m ==> r.m[name] == Template())
      && (settings != map[] ==> r.m[name] == Merged(settings) && (forall k :: k in settings ==> r.m[name][k] == settings[k]))
      && (forall n :: n != name ==> (n in r.m <==> n in options.m) && (n in r.m ==> r.m[n] == options.m[n]))
  {
  }

  /** The argument of `alias()`: one name, or an array of them. */
  datatype AliasArg = One(name: string) | Many(names: seq<string>)

  /** `$option['aliases'][] = $alias` or `array_merge($option['aliases'], $alias)`.
      Appending to null or `false` starts a new list. On a number or `true`
      PHP 5 and 7 only warn and keep the value, as here. A string or a
      callable, on which PHP raises an Error, is also left as it was. */
  function AddAliases(r: Record, alias: AliasArg): Record {
    var cur := Field(r, "aliases");
    match alias
    case One(name) =>
      (match cur
       case Arr(items) => r["aliases" := Arr(items + [Str(name)])]
       case Null => r["aliases" := Arr([Str(name)])]
       case Bool(b) => if b then r else r["aliases" := Arr([Str(name)])]
       case _ => r)
    case Many(names) =>
      r["aliases" := if cur.Arr? then Arr(cur.items + AsValues(names)) else Null]
  }

  /** The new names are listed after the old ones. */
  lemma AddAliasesAppends(r: Record, alias: AliasArg)
    requires Field(r, "aliases").Arr?
    ensures Aliases(AddAliases(r, alias)) == Aliases(r) + (match alias case One(n) => [n] case Many(ns) => ns)
  {
    var items := Field(r, "aliases").items;
    match alias {
      case One(n) =>
        StringsOfAppend(items, [Str(n)]);
        assert StringsOf([Str(n)]) == [n] by {
          assert [Str(n)][1..] == [];
        }
      case Many(ns) =>
        StringsOfAppend(items, AsValues(ns));
        StringsOfAsValues(ns);
    }
  }

  /** `foreach ($aliases as $alias) if (!array_key_exists($alias, $this->optionMap)) $this->optionMap[$alias] = $owner;` */
  function MapFirst(optionMap: OMap<string>, names: seq<string>, owner: string): OMap<string>
    decreases |names|
  {
    if names == [] then optionMap
    else MapFirst(if names[0] in optionMap.m then optionMap else optionMap.Put(names[0], owner), names[1..], owner)
  }

  /** The first registration of a name wins: mapped names keep their option,
      the new ones map to the owner, and nothing else is mapped. */
  lemma {:induction false} MapFirstSpec(optionMap: OMap<string>, names: seq<string>, owner: string)
    ensures var r := MapFirst(optionMap, names, owner);
      && (optionMap.Valid() ==> r.Valid())
      && (forall n :: n in optionMap.m ==> n in r.m && r.m[n] == optionMap.m[n])
      && (forall n :: n in names && n !in optionMap.m ==> n in r.m && r.m[n] == owner)
      && (forall n :: n !in names && n !in optionMap.m ==> n !in r.m)
    decreases |names|
  {
    if names != [] {
      var next := if names[0] in optionMap.m then optionMap else optionMap.Put(names[0], owner);
      MapFirstSpec(next, names[1..], owner);
      forall n | n in names && n !in optionMap.m
        ensures n in MapFirst(optionMap, names, owner).m && MapFirst(optionMap, names, owner).m[n] == owner
      {
        if n != names[0] {
          assert n in names[1..];
        }
      }
    }
  }

  /** Every name in the option map leads to a declared option. */
  ghost predicate Linked(optionMap: OMap<string>, options: OMap<Record>) {
    optionMap.m.Values <= options.m.Keys
  }

  /** `option()` keeps the records well formed and every mapped name leading to a record. */
  lemma DeclaredLinked(options: OMap<Record>, optionMap: OMap<string>, name: string, settings: Record)
    requires options.Valid() && Linked(optionMap, options)
    ensures Declared(options, name, settings).Valid()
    ensures Linked(optionMap.Put(name, name), Declared(options, name, settings))
  {
    var r := Declared(options, name, settings);
    assert name in r.m && options.m.Keys <= r.m.Keys;
  }

  /** The builder of src/DESTRealm/Optionally.php. */
  class Optionally {
    var args: seq<string>
    var options: OMap<Record>
    var optionMap: OMap<string>
    var lastOption: string

    /** Both arrays are well formed, and every name in the option map leads to a declared option. */
    ghost predicate Valid()
      reads this
    {
      options.Valid() && optionMap.Valid() && Linked(optionMap, options)
    }

    /** `new Optionally($args)`: an empty argument list falls back on the
        process's argv (the parameter `serverArgv`); the first element, the
        script name, is removed and the rest kept in order. */
    constructor (given: seq<string>, serverArgv: seq<string>)
      ensures Valid()
      ensures args == ScriptArguments(given, serverArgv)
      ensures options.keys == [] && optionMap.keys == [] && lastOption == ""
    {
      args := ScriptArguments(given, serverArgv);
      options := EmptyMap();
      optionMap := EmptyMap();
      lastOption := "";
    }

    /** `option($name, $settings)` */
    method Option(name: string, settings: Record)
      requires Valid()
      modifies this`options, this`optionMap, this`lastOption
      ensures Valid()
      ensures lastOption == name
      ensures options == Declared(old(options), name, settings)
      ensures optionMap == old(optionMap).Put(name, name)
      ensures args == old(args)
    {
      var records := options;
      if name !in records.m {
        records := records.Put(name, Template());
      }
      if settings != map[] {
        records := records.Put(name, Merged(settings));
      }
      assert records == Declared(options, name, settings);
      var names := optionMap.Put(name, name);
      DeclaredLinked(options, optionMap, name, settings);
      options, optionMap, lastOption := records, names, name;
    }

    /** A modifier: it edits the record of the option named last, and only
        that one. A modifier called before any option creates a record under
        the empty name, as PHP's reference to a missing element does. */
    method Apply(m: Modifier)
      requires Valid()
      modifies this
      ensures Valid()
      ensures options == old(options).Put(lastOption, Modify(m, RecordAt(old(options.m), lastOption)))
      ensures optionMap == old(optionMap) && lastOption == old(lastOption) && args == old(args)
    {
      options := options.Put(lastOption, Modify(m, RecordAt(options.m, lastOption)));
    }

    /** `alias($alias)`: the names are added to the record, then every alias
        the record lists that is not yet mapped is mapped to the option. */
    method Alias(alias: AliasArg)
      requires Valid()
      modifies this
      ensures Valid()
      ensures options == old(options).Put(lastOption, AddAliases(RecordAt(old(options.m), lastOption), alias))
      ensures optionMap == MapFirst(old(optionMap), Aliases(options.m[lastOption]), lastOption)
      ensures lastOption == old(lastOption) && args == old(args)
    {
      var r := AddAliases(RecordAt(options.m, lastOption), alias);
      options := options.Put(lastOption, r);
      MapNew(Aliases(r));
    }

    /** The loop of `alias()` over the record's aliases. */
    method MapNew(names: seq<string>)
      requires Valid() && lastOption in options.m
      modifies this
      ensures Valid()
      ensures optionMap == MapFirst(old(optionMap), names, lastOption)
      ensures options == old(options) && lastOption == old(lastOption) && args == old(args)
    {
      for i := 0 to |names|
        invariant options == old(options) && lastOption == old(lastOption) && args == old(args)
        invariant MapFirst(optionMap, names[i..], lastOption) == MapFirst(old(optionMap), names, lastOption)
      {
        assert names[i..][0] == names[i] && names[i..][1..] == names[i + 1..];
        if names[i] !in optionMap.m {
          optionMap := optionMap.Put(names[i], lastOption);
        }
      }
      assert names[|names|..] == [];
      MapFirstSpec(old(optionMap), names, lastOption);
    }

    /** `argv()`: hands the arguments and the records to `OptionBuilder`,
        whose `build()` groups the occurrences; `argv()` itself returns null.
        The tokenizer's exception is the returned failure. */
    method Argv(rev: Revision) returns (failure: Option<GetoptError>)
      ensures var spec := Tokenize(rev, 2, args,
          ShortSpec(DeclsOf(options.keys, options.m)), LongSpec(DeclsOf(options.keys, options.m)), true);
        failure.Some? <==> spec.Err?
    {
      var r := OptionBuilder.Build(rev, args, options);
      failure := if r.Err? then Some(r.error) else None;
    }
  }

  /** The arguments the constructor keeps: the given ones, or the process's
      argv when none are given, without the first element. */
  function ScriptArguments(given: seq<string>, serverArgv: seq<string>): (r: seq<string>)
    ensures var src := if given == [] then serverArgv else given;
      && |r| == (if src == [] then 0 else |src| - 1)
      && forall i :: 0 <= i < |r| ==> r[i] == src[i + 1]
  {
    var src := if given == [] then serverArgv else given;
    if src == [] then [] else src[1..]
  }
}
