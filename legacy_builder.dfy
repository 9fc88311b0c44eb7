/** The first-generation builder of Optionally.class.php. It keeps the option
    records and a cache of parsed values: every modifier empties the cache,
    and reading an option rebuilds it when it is empty. Rebuilding adds the
    spellings of hyphenated names to the aliases, builds the spec strings and
    the option map from the records as they were before that, tokenizes
    (unknown options are errors), parses the occurrences, and sets absent
    boolean options to `false`. */
module LegacyBuilder {
  import opened Php
  import opened Getopt
  import opened Naming
  import opened Declare
  import Resolver
  import Builder

  /** `$optionTemplate` */
  function Template(): Record {
    map["aliases" := Arr([]), "description" := Null, "required" := Bool(false), "ifNull" := Str(""),
        "boolean" := Bool(false), "callback" := Null, "defaults" := Null, "examples" := Null,
        "value" := Bool(false), "optionalValue" := Bool(false)]
  }

  /** `boolean()`, `required()`, `optional()`, `value()`, `defaults($v)`, `describe($h)`, `examples($e)`. */
  datatype Modifier =
    | Boolean
    | Required
    | Optional
    | SetValue
    | Defaults(v: Value)
    | Describe(help: Value)
    | Examples(v: Value)

  function Modify(m: Modifier, r: Record): Record {
    match m
    case Boolean => r["boolean" := Bool(true)]["required" := Bool(false)]
    case Required => r["required" := Bool(true)]["boolean" := Bool(false)]
    case Optional => r["optionalValue" := Bool(true)]
    case SetValue => r["value" := Bool(true)]
    case Defaults(v) => r["defaults" := v]
    case Describe(h) => r["description" := h]
    case Examples(v) => r["examples" := v]
  }

  /** `boolean()` clears required and `required()` clears boolean, so no
      modifier makes an option both. */
  lemma ModifyKeepsExclusive(m: Modifier, r: Record)
    requires !(IsTrue(r, "boolean") && IsTrue(r, "required"))
    ensures !(IsTrue(Modify(m, r), "boolean") && IsTrue(Modify(m, r), "required"))
    ensures m == Boolean ==> IsTrue(Modify(m, r), "boolean") && Field(Modify(m, r), "required") == Bool(false)
    ensures m == Required ==> IsTrue(Modify(m, r), "required") && Field(Modify(m, r), "boolean") == Bool(false)
  {
    match m {
      case Boolean =>
      case Required =>
      case _ =>
        assert Field(Modify(m, r), "boolean") == Field(r, "boolean");
        assert Field(Modify(m, r), "required") == Field(r, "required");
    }
  }

  // ---------------------------------------------------------------------
  // Spellings
  // ---------------------------------------------------------------------

  /** `mangleAll($option)`: `array_merge($aliases, mangle($option))`; the
      spellings it computes from the aliases are never used. */
  function MangleRecord(option: string, r: Record): Record {
    var cur := Field(r, "aliases");
    r["aliases" := if cur.Arr? then Arr(cur.items + AsValues(Mangle(option))) else Null]
  }

  /** Every record after the `mangleAll` calls of one rebuild, in the order of the options. */
  function MangleAll(options: OMap<Record>): (r: OMap<Record>)
    ensures r.keys == options.keys
  {
    OMap(options.keys, UpdateEach(options.m, options.keys, MangleRecord))
  }

  /** A rebuild keeps the options and their order, and mangles each record once. */
  lemma MangleAllSpec(options: OMap<Record>)
    requires options.Valid()
    ensures MangleAll(options).Valid() && MangleAll(options).m.Keys == options.m.Keys
    ensures forall k :: k in options.m ==> MangleAll(options).m[k] == MangleRecord(k, options.m[k])
  {
    UpdateEachSpec(options.m, options.keys, MangleRecord);
  }

  /** Each rebuild lists a hyphenated option's two spellings after its aliases. */
  lemma MangleRecordAliases(r: Record, option: string)
    requires Field(r, "aliases").Arr?
    ensures Aliases(MangleRecord(option, r)) == Aliases(r) + Mangle(option)
  {
    StringsOfAppend(Field(r, "aliases").items, AsValues(Mangle(option)));
    StringsOfAsValues(Mangle(option));
  }

  /** A name no option answers to is not in the option map built from those options. */
  lemma UnansweredNameUnmapped(keys: seq<string>, options: map<string, Record>, n: string)
    requires forall j :: 0 <= j < |keys| ==> n !in NamesOf(options, keys[j])
    ensures n !in OptionMapOf(keys, options, EmptyMap()).m
  {
    OptionMapSound(keys, options);
  }

  /** After a rebuild, the option at `i` answers to its underscore spelling. */
  lemma MangledAnswersSpelling(options: OMap<Record>, i: nat)
    requires options.Valid() && i < |options.keys|
    requires '-' in options.keys[i] && Field(options.m[options.keys[i]], "aliases").Arr?
    ensures MapChar(options.keys[i], '-', '_') in NamesOf(MangleAll(options).m, MangleAll(options).keys[i])
  {
    var k := options.keys[i];
    var mangled := MangleAll(options);
    MangleAllSpec(options);
    assert mangled.keys[i] == k && mangled.m[k] == MangleRecord(k, options.m[k]);
    MangleRecordAliases(options.m[k], k);
    MangleCount(k);
    UnderscoreSpelling(k);
    assert MapChar(k, '-', '_') in Aliases(mangled.m[k]);
  }

  /** The spec strings and the option map come from the records as they were
      before the rebuild added the spellings: a hyphenated option's
      underscore spelling, which no option answered to before, is not in the
      first rebuild's option map, but is in every later one. */
  lemma SpellingsMappedOnRebuild(options: OMap<Record>, i: nat)
    requires options.Valid() && i < |options.keys|
    requires '-' in options.keys[i] && Field(options.m[options.keys[i]], "aliases").Arr?
    requires forall j :: 0 <= j < |options.keys| ==> MapChar(options.keys[i], '-', '_') !in NamesOf(options.m, options.keys[j])
    ensures MapChar(options.keys[i], '-', '_') !in OptionMapOf(options.keys, options.m, EmptyMap()).m
    ensures MapChar(options.keys[i], '-', '_') in OptionMapOf(MangleAll(options).keys, MangleAll(options).m, EmptyMap()).m
  {
    UnansweredNameUnmapped(options.keys, options.m, MapChar(options.keys[i], '-', '_'));
    MangledAnswersSpelling(options, i);
    OptionMapSound(MangleAll(options).keys, MangleAll(options).m);
  }

  // ---------------------------------------------------------------------
  // parseOptions
  // ---------------------------------------------------------------------

  /** Why reading an option fails: the tokenizer's exception, or a value
      missing for an option that requires one. */
  datatype LegacyError = Tokenizer(e: GetoptError) | RequiresArgument(opt: string)

  /** One occurrence. As written, the name is stored as given, and its
      settings are found only under an option key or a name `in_array`
      finds among the option map's values (the masters); an alias given on
      the command line therefore stays a raw entry. As intended, the name is
      first mapped to its master, as the later `Options::parseOptions` does. */
  function ParseStep(rev: Revision, values: OMap<Value>, occ: Occurrence, options: map<string, Record>,
                     optionMap: OMap<string>): (r: Result<OMap<Value>, LegacyError>)
    ensures values.Valid() && r.Ok? ==> r.value.Valid()
  {
    var raw := Resolver.StripDashes(occ.name);
    var opt := if rev == Intended then Resolver.MasterOf(optionMap.m, raw) else raw;
    var settings :=
      if opt in options then Some(options[opt])
      else if rev == AsWritten && opt in optionMap.m.Values then Some(RecordAt(options, if opt in optionMap.m then optionMap.m[opt] else ""))
      else None;
    match settings
    case None => Ok(values.Put(opt, occ.value))
    case Some(s) =>
      if Truthy(Field(s, "value")) && !Truthy(Field(s, "optionalValue")) && !Truthy(occ.value) then Err(RequiresArgument(opt))
      else
        var v := if IsTrue(s, "boolean") && !Truthy(occ.value) then Bool(true) else occ.value;
        Ok(PutAll(values.Put(opt, v), Aliases(s), v))
  }

  function ParseAll(rev: Revision, values: OMap<Value>, occs: seq<Occurrence>, options: map<string, Record>,
                    optionMap: OMap<string>): (r: Result<OMap<Value>, LegacyError>)
    ensures values.Valid() && r.Ok? ==> r.value.Valid()
    decreases |occs|
  {
    if occs == [] then Ok(values)
    else
      match ParseStep(rev, values, occs[0], options, optionMap)
      case Err(e) => Err(e)
      case Ok(v) => ParseAll(rev, v, occs[1..], options, optionMap)
  }

  /** An option that takes a mandatory value and is given an empty one stops the parse. */
  lemma EmptyValueRejected(rev: Revision, values: OMap<Value>, occ: Occurrence, options: map<string, Record>, optionMap: OMap<string>)
    requires Resolver.StripDashes(occ.name) in options && Resolver.StripDashes(occ.name) !in optionMap.m
    requires var s := options[Resolver.StripDashes(occ.name)];
      Truthy(Field(s, "value")) && !Truthy(Field(s, "optionalValue"))
    ensures ParseStep(rev, values, occ, options, optionMap) == Err(RequiresArgument(Resolver.StripDashes(occ.name))) <==> !Truthy(occ.value)
  {
  }

  /** A name that is neither an option nor a master keeps its raw entry and nothing else changes. */
  lemma UnknownNameKept(values: OMap<Value>, occ: Occurrence, options: map<string, Record>, optionMap: OMap<string>)
    requires Resolver.StripDashes(occ.name) !in options && Resolver.StripDashes(occ.name) !in optionMap.m.Values
    ensures ParseStep(AsWritten, values, occ, options, optionMap) == Ok(values.Put(Resolver.StripDashes(occ.name), occ.value))
  {
  }

  // ---------------------------------------------------------------------
  // Boolean false
  // ---------------------------------------------------------------------

  /** One entry `$option => $master` of the boolean-false loop. */
  function FalseStep(cache: OMap<Value>, option: string, optionMap: OMap<string>, options: map<string, Record>): (r: OMap<Value>)
    ensures cache.Valid() ==> r.Valid()
  {
    var master := Resolver.MasterOf(optionMap.m, option);
    if option !in cache.m && IsTrue(RecordAt(options, master), "boolean") then
      PutAll(cache, Aliases(RecordAt(options, option)), Bool(false)).Put(master, Bool(false))
    else cache
  }

  function FalsePass(cache: OMap<Value>, keys: seq<string>, optionMap: OMap<string>, options: map<string, Record>): (r: OMap<Value>)
    ensures cache.Valid() ==> r.Valid()
    decreases |keys|
  {
    if keys == [] then cache else FalsePass(FalseStep(cache, keys[0], optionMap, options), keys[1..], optionMap, options)
  }

  /** The loop writes only `false`, and removes nothing. */
  lemma {:induction false} FalsePassWritesFalse(cache: OMap<Value>, keys: seq<string>, optionMap: OMap<string>, options: map<string, Record>)
    ensures var r := FalsePass(cache, keys, optionMap, options);
      forall n :: n in cache.m ==> n in r.m && (r.m[n] == cache.m[n] || r.m[n] == Bool(false))
    ensures var r := FalsePass(cache, keys, optionMap, options);
      forall n :: n in r.m && n !in cache.m ==> r.m[n] == Bool(false)
    decreases |keys|
  {
    if keys != [] {
      var next := FalseStep(cache, keys[0], optionMap, options);
      FalsePassWritesFalse(next, keys[1..], optionMap, options);
      var master := Resolver.MasterOf(optionMap.m, keys[0]);
      if keys[0] !in cache.m && IsTrue(RecordAt(options, master), "boolean") {
        PutAllSpec(cache, Aliases(RecordAt(options, keys[0])), Bool(false));
      }
    }
  }

  /** A boolean option whose own name is absent after parsing is `false` afterwards. */
  lemma {:induction false} AbsentBooleanIsFalse(cache: OMap<Value>, keys: seq<string>, optionMap: OMap<string>,
                                                options: map<string, Record>, m: string)
    requires m in keys && Resolver.MasterOf(optionMap.m, m) == m && IsTrue(RecordAt(options, m), "boolean")
    requires m in cache.m ==> cache.m[m] == Bool(false)
    ensures var r := FalsePass(cache, keys, optionMap, options);
      m in r.m && r.m[m] == Bool(false)
    decreases |keys|
  {
    var next := FalseStep(cache, keys[0], optionMap, options);
    if keys[0] == m {
      if m !in cache.m {
        assert m in next.m && next.m[m] == Bool(false);
      }
      FalsePassWritesFalse(next, keys[1..], optionMap, options);
    } else {
      assert m in keys[1..];
      var master := Resolver.MasterOf(optionMap.m, keys[0]);
      if keys[0] !in cache.m && IsTrue(RecordAt(options, master), "boolean") {
        PutAllSpec(cache, Aliases(RecordAt(options, keys[0])), Bool(false));
      }
      AbsentBooleanIsFalse(next, keys[1..], optionMap, options, m);
    }
  }

  // ---------------------------------------------------------------------
  // A rebuild of the cache
  // ---------------------------------------------------------------------

  /** The parsed values after the boolean-false loop. */
  function AfterParse(rev: Revision, occs: seq<Occurrence>, options: map<string, Record>, optionMap: OMap<string>)
    : Result<OMap<Value>, LegacyError>
  {
    match ParseAll(rev, EmptyMap(), occs, options, optionMap)
    case Err(e) => Err(e)
    case Ok(c) => Ok(FalsePass(c, optionMap.keys, optionMap, options))
  }

  /** What `prepareOptionCache` computes from the records `snapshot` it starts with. */
  function Prepared(rev: Revision, args: seq<string>, snapshot: OMap<Record>): Result<(OMap<Value>, seq<string>), LegacyError> {
    var ds := DeclsOf(snapshot.keys, snapshot.m);
    var optionMap := OptionMapOf(snapshot.keys, snapshot.m, EmptyMap());
    match Tokenize(rev, 2, args, ShortSpec(ds), LongSpec(ds), false)
    case Err(e) => Err(Tokenizer(e))
    case Ok(p) =>
      match AfterParse(rev, p.opts, MangleAll(snapshot).m, optionMap)
      case Err(e) => Err(e)
      case Ok(c) => Ok((c, p.nonOpts))
  }

  /** As written, the alias `a` of a boolean option `m`, given alone, leaves
      both `a` and `m` false: the alias is stored raw, its settings are not
      found, and the boolean-false loop then finds `m` absent. */
  lemma AsWrittenAliasReadsFalse(m: string, a: string, r: Record)
    requires a != m && Resolver.NoDoubleDash(a) && IsTrue(r, "boolean") && Aliases(r) == [a]
    ensures AfterParse(AsWritten, [Occurrence(a, Null)], map[m := r], OMap([m, a], map[m := m, a := m]))
      == Ok(OMap([a, m], map[a := Bool(false), m := Bool(false)]))
  {
    AsWrittenStoresRaw(m, a, r);
    AsWrittenFalsePass(m, a, r);
  }

  lemma AsWrittenStoresRaw(m: string, a: string, r: Record)
    requires a != m && Resolver.NoDoubleDash(a) && IsTrue(r, "boolean") && Aliases(r) == [a]
    ensures ParseAll(AsWritten, EmptyMap(), [Occurrence(a, Null)], map[m := r], OMap([m, a], map[m := m, a := m]))
      == Ok(OMap([a], map[a := Null]))
  {
    var optionMap := OMap([m, a], map[m := m, a := m]);
    Resolver.StripKeepsPlainName(a);
    assert a !in optionMap.m.Values;
    var c := OMap([a], map[a := Null]);
    assert Resolver.StripDashes(a) == a;
    assert EmptyMap<Value>().Put(a, Null) == c by {
      assert [] + [a] == [a];
    }
    assert ParseStep(AsWritten, EmptyMap(), Occurrence(a, Null), map[m := r], optionMap) == Ok(c);
    assert [Occurrence(a, Null)][1..] == [];
  }

  lemma AsWrittenFalsePass(m: string, a: string, r: Record)
    requires a != m && IsTrue(r, "boolean") && Aliases(r) == [a]
    ensures FalsePass(OMap([a], map[a := Null]), [m, a], OMap([m, a], map[m := m, a := m]), map[m := r])
      == OMap([a, m], map[a := Bool(false), m := Bool(false)])
  {
    var optionMap := OMap([m, a], map[m := m, a := m]);
    var c := OMap([a], map[a := Null]);
    var s1 := FalseStep(c, m, optionMap, map[m := r]);
    assert PutAll(c, [a], Bool(false)) == OMap([a], map[a := Bool(false)]);
    assert s1 == OMap([a, m], map[a := Bool(false), m := Bool(false)]);
    assert FalseStep(s1, a, optionMap, map[m := r]) == s1;
    assert [m, a][1..] == [a] && [a][1..] == [];
    assert FalsePass(s1, [a], optionMap, map[m := r]) == FalsePass(s1, [], optionMap, map[m := r]);
  }

  /** Mapping the name to its master first, `a` alone sets both `m` and `a` to `true`. */
  lemma IntendedAliasReadsTrue(m: string, a: string, r: Record)
    requires a != m && Resolver.NoDoubleDash(a) && IsTrue(r, "boolean") && Aliases(r) == [a]
    requires !(Truthy(Field(r, "value")) && !Truthy(Field(r, "optionalValue")))
    ensures AfterParse(Intended, [Occurrence(a, Null)], map[m := r], OMap([m, a], map[m := m, a := m]))
      == Ok(OMap([m, a], map[m := Bool(true), a := Bool(true)]))
  {
    IntendedStoresMaster(m, a, r);
    IntendedFalsePass(m, a, r);
  }

  lemma IntendedStoresMaster(m: string, a: string, r: Record)
    requires a != m && Resolver.NoDoubleDash(a) && IsTrue(r, "boolean") && Aliases(r) == [a]
    requires !(Truthy(Field(r, "value")) && !Truthy(Field(r, "optionalValue")))
    ensures ParseAll(Intended, EmptyMap(), [Occurrence(a, Null)], map[m := r], OMap([m, a], map[m := m, a := m]))
      == Ok(OMap([m, a], map[m := Bool(true), a := Bool(true)]))
  {
    var optionMap := OMap([m, a], map[m := m, a := m]);
    Resolver.StripKeepsPlainName(a);
    var c := OMap([m, a], map[m := Bool(true), a := Bool(true)]);
    assert Resolver.StripDashes(a) == a;
    assert Resolver.MasterOf(optionMap.m, a) == m;
    assert EmptyMap<Value>().Put(m, Bool(true)) == OMap([m], map[m := Bool(true)]) by {
      assert [] + [m] == [m];
    }
    assert PutAll(OMap([m], map[m := Bool(true)]), [a], Bool(true)) == c;
    assert ParseStep(Intended, EmptyMap(), Occurrence(a, Null), map[m := r], optionMap) == Ok(c);
    assert [Occurrence(a, Null)][1..] == [];
  }

  lemma IntendedFalsePass(m: string, a: string, r: Record)
    requires a != m && IsTrue(r, "boolean")
    ensures var c := OMap([m, a], map[m := Bool(true), a := Bool(true)]);
      FalsePass(c, [m, a], OMap([m, a], map[m := m, a := m]), map[m := r]) == c
  {
    var optionMap := OMap([m, a], map[m := m, a := m]);
    var c := OMap([m, a], map[m := Bool(true), a := Bool(true)]);
    assert FalseStep(c, m, optionMap, map[m := r]) == c && FalseStep(c, a, optionMap, map[m := r]) == c;
    assert [m, a][1..] == [a] && [a][1..] == [];
    assert FalsePass(c, [a], optionMap, map[m := r]) == FalsePass(c, [], optionMap, map[m := r]);
  }

  /** The arguments are kept with the script name, and the tokenizer stops at
      the first token that is not an option: when the first argument is the
      script name, every argument is positional and no option is read. */
  lemma ScriptNameStopsParsing(rev: Revision, args: seq<string>, short: string, longs: seq<string>, skip: bool)
    requires args != [] && args[0] != "" && args[0][0] != '-'
    ensures Tokenize(rev, 2, args, short, longs, skip) == Ok(Parsed([], args))
  {
    assert args[0..] == args;
  }

  // ---------------------------------------------------------------------
  // The builder
  // ---------------------------------------------------------------------

  /** The builder of Optionally.class.php. */
  class Optionally {
    var args: seq<string>            // `$this->args`, script name included
    var options: OMap<Record>
    var lastOption: string
    var optionCache: OMap<Value>
    var positionals: seq<string>     // `$_args`

    ghost predicate Valid()
      reads this
    {
      options.Valid() && optionCache.Valid()
    }

    /** `new Optionally($args)`: an empty list falls back on the process's argv. */
    constructor (given: seq<string>, serverArgv: seq<string>)
      ensures Valid()
      ensures args == (if given == [] then serverArgv else given)
      ensures options.keys == [] && optionCache.keys == [] && positionals == [] && lastOption == ""
    {
      args := if given == [] then serverArgv else given;
      options := EmptyMap();
      lastOption := "";
      optionCache := EmptyMap();
      positionals := [];
    }

    /** `option($name, $settings)`: selects the option; it does not touch the cache. */
    method Option(name: string, settings: Record)
      requires Valid()
      modifies this
      ensures Valid()
      ensures lastOption == name
      ensures options == (var o := if name in old(options).m then old(options) else old(options).Put(name, Template());
                          if settings != map[] then o.Put(name, Template() + settings) else o)
      ensures optionCache == old(optionCache) && args == old(args) && positionals == old(positionals)
    {
      lastOption := name;
      if name !in options.m {
        options := options.Put(name, Template());
      }
      if settings != map[] {
        options := options.Put(name, Template() + settings);
      }
    }

    /** A modifier: `getLastOption()` empties the cache, then the record of the option named last is edited. */
    method Apply(m: Modifier)
      requires Valid()
      modifies this
      ensures Valid()
      ensures optionCache.keys == [] && optionCache.m == map[]
      ensures options == old(options).Put(lastOption, Modify(m, RecordAt(old(options.m), lastOption)))
      ensures lastOption == old(lastOption) && args == old(args) && positionals == old(positionals)
    {
      optionCache := EmptyMap();
      options := options.Put(lastOption, Modify(m, RecordAt(options.m, lastOption)));
    }

    /** `alias($alias)`: empties the cache and appends the alias. */
    method Alias(alias: string)
      requires Valid()
      modifies this
      ensures Valid()
      ensures optionCache.keys == [] && optionCache.m == map[]
      ensures options == old(options).Put(lastOption, Builder.AddAliases(RecordAt(old(options.m), lastOption), Builder.One(alias)))
      ensures lastOption == old(lastOption) && args == old(args) && positionals == old(positionals)
    {
      optionCache := EmptyMap();
      options := options.Put(lastOption, Builder.AddAliases(RecordAt(options.m, lastOption), Builder.One(alias)));
    }

    /** `prepareOptionCache()`: nothing when the cache holds values; otherwise
        a rebuild. A thrown exception is the returned failure and leaves the
        cache as it was. */
    method Prepare(rev: Revision) returns (failure: Option<LegacyError>)
      requires Valid()
      modifies this
      ensures Valid()
      ensures args == old(args) && lastOption == old(lastOption)
      ensures old(optionCache.keys) != [] ==>
        failure == None && options == old(options) && optionCache == old(optionCache) && positionals == old(positionals)
      ensures old(optionCache.keys) == [] ==> options == MangleAll(old(options))
      ensures old(optionCache.keys) == [] ==>
        match Prepared(rev, old(args), old(options))
        case Ok(res) => failure == None && optionCache == res.0 && positionals == res.1
        case Err(e) => failure == Some(e) && optionCache == old(optionCache) && positionals == old(positionals)
    {
      if optionCache.keys != [] {
        return None;
      }
      var snapshot := options;
      var mangled := UpdateAll(snapshot, snapshot.keys, MangleRecord);
      MangleAllSpec(snapshot);
      options := mangled;
      var res := Rebuild(rev, args, snapshot, mangled);
      match res {
        case Err(e) =>
          failure := Some(e);
        case Ok(built) =>
          optionCache := built.0;
          positionals := built.1;
          failure := None;
      }
    }

    /** `__get($name)`: the cached value, else a rebuild and the cached value, else null. */
    method Get(rev: Revision, name: string) returns (r: Result<Value, LegacyError>)
      requires Valid()
      modifies this
      ensures Valid()
      ensures name in old(optionCache.m) ==> r == Ok(old(optionCache.m[name])) && optionCache == old(optionCache)
      ensures name !in old(optionCache.m) && old(optionCache.keys) == [] ==>
        match Prepared(rev, old(args), old(options))
        case Ok(res) => r == Ok(if name in res.0.m then res.0.m[name] else Null)
        case Err(e) => r == Err(e)
      ensures name !in old(optionCache.m) && old(optionCache.keys) != [] ==> r == Ok(Null)
    {
      if name in optionCache.m {
        return Ok(optionCache.m[name]);
      }
      var failure := Prepare(rev);
      if failure.Some? {
        return Err(failure.value);
      }
      r := Ok(if name in optionCache.m then optionCache.m[name] else Null);
    }

    /** `args()`: the positionals of the cached parse, rebuilding it first when needed. */
    method Args(rev: Revision) returns (r: Result<seq<string>, LegacyError>)
      requires Valid()
      modifies this
      ensures Valid()
      ensures old(optionCache.keys) != [] ==> r == Ok(old(positionals))
      ensures old(optionCache.keys) == [] ==>
        match Prepared(rev, old(args), old(options))
        case Ok(res) => r == Ok(res.1)
        case Err(e) => r == Err(e)
    {
      var failure := Prepare(rev);
      if failure.Some? {
        return Err(failure.value);
      }
      return Ok(positionals);
    }
  }

  /** The rest of `prepareOptionCache()`: the spec strings and the option map
      from the records as they were, then the tokenizer, the parse against
      the mangled records, and the boolean-false loop. */
  method Rebuild(rev: Revision, args: seq<string>, snapshot: OMap<Record>, mangled: OMap<Record>)
    returns (r: Result<(OMap<Value>, seq<string>), LegacyError>)
    requires mangled == MangleAll(snapshot)
    ensures r == Prepared(rev, args, snapshot)
    ensures r.Ok? ==> r.value.0.Valid()
  {
    var shortOpts, longOpts, optionMap := BuildSpec(snapshot);
    var parsed := Getopt2(rev, args, shortOpts, longOpts, false);
    if parsed.Err? {
      return Err(Tokenizer(parsed.error));
    }
    var values := ParseOccurrences(rev, parsed.value.opts, mangled.m, optionMap);
    if values.Err? {
      return Err(values.error);
    }
    var cache := FalseBooleans(values.value, optionMap, mangled.m);
    return Ok((cache, parsed.value.nonOpts));
  }

  /** `parseOptions($options, $optionMap)`'s loop. */
  method ParseOccurrences(rev: Revision, occs: seq<Occurrence>, options: map<string, Record>, optionMap: OMap<string>)
    returns (r: Result<OMap<Value>, LegacyError>)
    ensures r == ParseAll(rev, EmptyMap(), occs, options, optionMap)
  {
    var values := EmptyMap();
    for i := 0 to |occs|
      invariant ParseAll(rev, values, occs[i..], options, optionMap) == ParseAll(rev, EmptyMap(), occs, options, optionMap)
    {
      assert occs[i..][0] == occs[i] && occs[i..][1..] == occs[i + 1..];
      var step := ParseOne(rev, values, occs[i], options, optionMap);
      if step.Err? {
        return Err(step.error);
      }
      values := step.value;
    }
    return Ok(values);
  }

  /** One pass of that loop. */
  method ParseOne(rev: Revision, values: OMap<Value>, occ: Occurrence, options: map<string, Record>, optionMap: OMap<string>)
    returns (r: Result<OMap<Value>, LegacyError>)
    ensures r == ParseStep(rev, values, occ, options, optionMap)
  {
    var opt := Resolver.StripDashes(occ.name);
    if rev == Intended && opt in optionMap.m {
      opt := optionMap.m[opt];
    }
    assert opt == if rev == Intended then Resolver.MasterOf(optionMap.m, Resolver.StripDashes(occ.name)) else Resolver.StripDashes(occ.name);
    var stored := values.Put(opt, occ.value);
    var settings: Record;
    if opt in options {
      settings := options[opt];
    } else if rev == AsWritten && opt in optionMap.m.Values {
      settings := RecordAt(options, if opt in optionMap.m then optionMap.m[opt] else "");
    } else {
      return Ok(stored);
    }
    if Truthy(Field(settings, "value")) && !Truthy(Field(settings, "optionalValue")) && !Truthy(occ.value) {
      return Err(RequiresArgument(opt));
    }
    if IsTrue(settings, "boolean") && !Truthy(occ.value) {
      stored := stored.Put(opt, Bool(true));
      assert stored == values.Put(opt, Bool(true)) by {
        assert stored.m == values.m[opt := Bool(true)];
      }
    }
    ghost var v := if IsTrue(settings, "boolean") && !Truthy(occ.value) then Bool(true) else occ.value;
    assert stored == values.Put(opt, v);
    var copied := Resolver.CopyToAliases(stored, opt, Aliases(settings));
    assert copied == PutAll(values.Put(opt, v), Aliases(settings), v);
    return Ok(copied);
  }

  /** The boolean-false loop over the option map. */
  method FalseBooleans(cache: OMap<Value>, optionMap: OMap<string>, options: map<string, Record>) returns (r: OMap<Value>)
    ensures r == FalsePass(cache, optionMap.keys, optionMap, options)
  {
    var keys := optionMap.keys;
    r := cache;
    for i := 0 to |keys|
      invariant FalsePass(r, keys[i..], optionMap, options) == FalsePass(cache, keys, optionMap, options)
    {
      assert keys[i..][0] == keys[i] && keys[i..][1..] == keys[i + 1..];
      var option := keys[i];
      var master := Resolver.MasterOf(optionMap.m, option);
      if option !in r.m && IsTrue(RecordAt(options, master), "boolean") {
        r := PutAll(r, Aliases(RecordAt(options, option)), Bool(false));
        r := r.Put(master, Bool(false));
      }
    }
  }
}
