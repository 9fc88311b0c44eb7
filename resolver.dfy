/** The `Options` container: what the builders hand the tokenizer's output to.
    `parseOptions` turns the occurrences into a value per name, then the
    constructor walks the option map, one entry (a name and the option that
    declares it) at a time, and applies six passes in a fixed order:
    requiredIfNull, boolean false, defaults, ifMissing, required, filter.
    Both generations (src/DESTRealm/Optionally/Options.php and
    Options.class.php) run the same passes; they differ in how a name is read
    back: the first falls back on the option map and the hyphenated spellings,
    the second reads the exact key only. */
module Resolver {
  import opened Php
  import opened Getopt
  import opened Naming

  /** The attributes of an option record that resolution reads; a missing key reads as null. */
  datatype Attrs = Attrs(
    boolean: Value, aliases: seq<string>, ifNull: Value, ifMissing: Value, defaults: Value,
    hasValue: Value, optionalValue: Value, required: Value, filter: Value, filterFailure: Value)

  function AttrsOf(r: Record): Attrs {
    Attrs(Field(r, "boolean"), Aliases(r), Field(r, "ifNull"), Field(r, "ifMissing"), Field(r, "defaults"),
          Field(r, "value"), Field(r, "optionalValue"), Field(r, "required"), Field(r, "filter"), Field(r, "filterFailure"))
  }

  /** `$settings[$name]`, read attribute by attribute. */
  function Setting(settings: map<string, Record>, name: string): Attrs {
    AttrsOf(RecordAt(settings, name))
  }

  /** `$values[$key]`, null when the key is missing. */
  function ValueAt(values: OMap<Value>, key: string): Value {
    if key in values.m then values.m[key] else Null
  }

  // ---------------------------------------------------------------------
  // parseOptions
  // ---------------------------------------------------------------------

  /** `str_replace('--', '', $opt)` */
  function StripDashes(name: string): string {
    Replace(name, "--", "")
  }

  predicate NoDoubleDash(s: string) {
    forall i :: 0 <= i < |s| - 1 ==> !(s[i] == '-' && s[i + 1] == '-')
  }

  lemma StripKeepsHead(s: string)
    requires |s| > 0 && s[0] != '-'
    ensures |StripDashes(s)| > 0 && StripDashes(s)[0] == s[0]
  {
    if |s| >= 2 {
      assert s[..2] != "--" by {
        assert s[..2][0] == s[0];
      }
    }
  }

  /** No name stored by `parseOptions` straight from an occurrence contains `--`. */
  lemma {:induction false} StripRemovesDoubleDash(s: string)
    ensures NoDoubleDash(StripDashes(s))
    decreases |s|
  {
    if |s| >= 2 {
      var r := StripDashes(s);
      if s[..2] == "--" {
        StripRemovesDoubleDash(s[2..]);
      } else {
        var rest := StripDashes(s[1..]);
        StripRemovesDoubleDash(s[1..]);
        assert r == [s[0]] + rest;
        if s[0] == '-' {
          assert s[1] != '-' by {
            assert s[..2] == [s[0], s[1]];
          }
          StripKeepsHead(s[1..]);
        }
        forall i | 0 <= i < |r| - 1 ensures !(r[i] == '-' && r[i + 1] == '-') {
          if i > 0 {
            assert r[i] == rest[i - 1] && r[i + 1] == rest[i];
          }
        }
      }
    }
  }

  /** A name without `--` is stored as it is. */
  lemma {:induction false} StripKeepsPlainName(s: string)
    requires NoDoubleDash(s)
    ensures StripDashes(s) == s
    decreases |s|
  {
    if |s| >= 2 {
      assert s[..2] != "--" by {
        assert s[..2] == [s[0], s[1]];
      }
      assert NoDoubleDash(s[1..]) by {
        forall i | 0 <= i < |s[1..]| - 1 ensures !(s[1..][i] == '-' && s[1..][i + 1] == '-') {
          assert s[1..][i] == s[i + 1] && s[1..][i + 1] == s[i + 2];
        }
      }
      StripKeepsPlainName(s[1..]);
      assert s == [s[0]] + s[1..];
    }
  }

  /** The tokenizer records a long option as `--name`; it is stored as `name`. */
  lemma LongOccurrenceName(name: string)
    requires NoDoubleDash(name)
    ensures StripDashes("--" + name) == name
  {
    assert ("--" + name)[..2] == "--";
    assert ("--" + name)[2..] == name;
    StripKeepsPlainName(name);
  }

  /** The name an occurrence is stored under: an alias becomes its master. */
  function MasterOf(optionMap: map<string, string>, opt: string): string {
    if opt in optionMap then optionMap[opt] else opt
  }

  /** The value stored for an occurrence: a boolean given no value is `true`. */
  function Stored(attrs: Attrs, val: Value): Value {
    if attrs.boolean == Bool(true) && !Truthy(val) then Bool(true) else val
  }

  /** `$values` and `$attributes` between two occurrences. `$attributes` is not
      reset: a name that no setting declares reuses the previous one's. */
  datatype ParseState = ParseState(values: OMap<Value>, attrs: Attrs)

  function ParseStep(st: ParseState, occ: Occurrence, settings: map<string, Record>, optionMap: map<string, string>): ParseState {
    var opt := MasterOf(optionMap, StripDashes(occ.name));
    var attrs := if opt in settings then AttrsOf(settings[opt]) else st.attrs;
    var v := Stored(attrs, occ.value);
    ParseState(PutAll(st.values.Put(opt, v), attrs.aliases, v), attrs)
  }

  function ParseFrom(st: ParseState, occs: seq<Occurrence>, settings: map<string, Record>, optionMap: map<string, string>): ParseState
    decreases |occs|
  {
    if occs == [] then st else ParseFrom(ParseStep(st, occs[0], settings, optionMap), occs[1..], settings, optionMap)
  }

  /** Before the first occurrence `$attributes` is undefined: every attribute reads as null. */
  function Unset(): Attrs {
    AttrsOf(map[])
  }

  function ParseOptions(occs: seq<Occurrence>, settings: map<string, Record>, optionMap: map<string, string>): OMap<Value> {
    ParseFrom(ParseState(EmptyMap(), Unset()), occs, settings, optionMap).values
  }

  lemma {:induction false} ParseFromAppend(st: ParseState, occs: seq<Occurrence>, o: Occurrence, settings: map<string, Record>, optionMap: map<string, string>)
    ensures ParseFrom(st, occs + [o], settings, optionMap) == ParseStep(ParseFrom(st, occs, settings, optionMap), o, settings, optionMap)
    decreases |occs|
  {
    if occs == [] {
      assert [] + [o] == [o];
    } else {
      assert (occs + [o])[0] == occs[0] && (occs + [o])[1..] == occs[1..] + [o];
      ParseFromAppend(ParseStep(st, occs[0], settings, optionMap), occs[1..], o, settings, optionMap);
    }
  }

  /** One occurrence of a declared option: its master and every alias listed in
      the master's settings hold the stored value (`true` for a boolean given no
      value), and nothing else changes. */
  lemma ParseStepSpec(st: ParseState, o: Occurrence, settings: map<string, Record>, optionMap: map<string, string>)
    requires MasterOf(optionMap, StripDashes(o.name)) in settings
    ensures var m := MasterOf(optionMap, StripDashes(o.name));
      var a := AttrsOf(settings[m]);
      var r := ParseStep(st, o, settings, optionMap).values;
      && m in r.m && r.m[m] == Stored(a, o.value)
      && (forall n :: n in a.aliases ==> n in r.m && r.m[n] == Stored(a, o.value))
      && (forall n :: n != m && n !in a.aliases ==> (n in r.m <==> n in st.values.m) && (n in r.m ==> r.m[n] == st.values.m[n]))
  {
    var m := MasterOf(optionMap, StripDashes(o.name));
    var a := AttrsOf(settings[m]);
    PutAllSpec(st.values.Put(m, Stored(a, o.value)), a.aliases, Stored(a, o.value));
  }

  /** A repeated option keeps only its last value, shared by its aliases. */
  lemma ParseLastWins(occs: seq<Occurrence>, o: Occurrence, settings: map<string, Record>, optionMap: map<string, string>)
    requires MasterOf(optionMap, StripDashes(o.name)) in settings
    ensures var m := MasterOf(optionMap, StripDashes(o.name));
      var a := AttrsOf(settings[m]);
      var r := ParseOptions(occs + [o], settings, optionMap);
      && m in r.m && r.m[m] == Stored(a, o.value)
      && (forall n :: n in a.aliases ==> n in r.m && r.m[n] == Stored(a, o.value))
  {
    ParseFromAppend(ParseState(EmptyMap(), Unset()), occs, o, settings, optionMap);
    ParseStepSpec(ParseFrom(ParseState(EmptyMap(), Unset()), occs, settings, optionMap), o, settings, optionMap);
  }

  /** A boolean given an empty value is stored as `true`; any other value is stored as given. */
  lemma StoredBoolean(a: Attrs, val: Value)
    ensures Stored(a, val) == Bool(true) <==> (a.boolean == Bool(true) && !Truthy(val)) || val == Bool(true)
    ensures a.boolean != Bool(true) ==> Stored(a, val) == val
    ensures Truthy(Stored(a, val)) <==> Truthy(val) || a.boolean == Bool(true)
  {
  }

  /** The parsed values never hold a falsy entry for a declared boolean
      option: a boolean given no value reads as set. */
  lemma {:induction false} ParsedBooleanTruthy(occs: seq<Occurrence>, settings: map<string, Record>, optionMap: map<string, string>, m: string)
    requires m in settings && AttrsOf(settings[m]).boolean == Bool(true)
    requires forall k :: 0 <= k < |occs| ==> MasterOf(optionMap, StripDashes(occs[k].name)) in settings
    requires forall k :: k in settings ==> m !in AttrsOf(settings[k]).aliases
    ensures var r := ParseOptions(occs, settings, optionMap);
      m in r.m ==> Truthy(r.m[m])
    decreases |occs|
  {
    if occs != [] {
      var init := occs[..|occs| - 1];
      var o := occs[|occs| - 1];
      assert occs == init + [o];
      ParsedBooleanTruthy(init, settings, optionMap, m);
      ParseFromAppend(ParseState(EmptyMap(), Unset()), init, o, settings, optionMap);
      ParseStepSpec(ParseFrom(ParseState(EmptyMap(), Unset()), init, settings, optionMap), o, settings, optionMap);
    }
  }

  /** `parseOptions`' loop: each occurrence stored under its master, then copied to the aliases. */
  method ParseOccurrences(occs: seq<Occurrence>, settings: map<string, Record>, optionMap: map<string, string>)
    returns (values: OMap<Value>)
    ensures values == ParseOptions(occs, settings, optionMap)
  {
    values := EmptyMap();
    var attrs := Unset();
    for i := 0 to |occs|
      invariant ParseFrom(ParseState(values, attrs), occs[i..], settings, optionMap) == ParseFrom(ParseState(EmptyMap(), Unset()), occs, settings, optionMap)
    {
      assert occs[i..][0] == occs[i] && occs[i..][1..] == occs[i + 1..];
      values, attrs := ParseOne(values, attrs, occs[i], settings, optionMap);
    }
  }

  /** One pass of that loop. */
  method ParseOne(values: OMap<Value>, attrs: Attrs, occ: Occurrence, settings: map<string, Record>, optionMap: map<string, string>)
    returns (values': OMap<Value>, attrs': Attrs)
    ensures ParseState(values', attrs') == ParseStep(ParseState(values, attrs), occ, settings, optionMap)
  {
    var opt := StripDashes(occ.name);
    if opt in optionMap {
      opt := optionMap[opt];
    }
    attrs' := attrs;
    if opt in settings {
      attrs' := AttrsOf(settings[opt]);
    }
    values' := values.Put(opt, occ.value);
    if attrs'.boolean == Bool(true) && !Truthy(occ.value) {
      values' := values'.Put(opt, Bool(true));
      assert values' == values.Put(opt, Bool(true)) by {
        assert values'.m == values.m[opt := Bool(true)];
      }
    }
    values' := CopyToAliases(values', opt, attrs'.aliases);
  }

  /** `foreach ($attributes['aliases'] as $alias) $values[$alias] = $values[$opt];` */
  method CopyToAliases(values: OMap<Value>, opt: string, aliases: seq<string>) returns (r: OMap<Value>)
    requires opt in values.m
    ensures r == PutAll(values, aliases, values.m[opt])
  {
    r := values;
    for j := 0 to |aliases|
      invariant opt in r.m && r.m[opt] == values.m[opt]
      invariant PutAll(r, aliases[j..], values.m[opt]) == PutAll(values, aliases, values.m[opt])
    {
      assert aliases[j..][0] == aliases[j] && aliases[j..][1..] == aliases[j + 1..];
      r := r.Put(aliases[j], r.m[opt]);
    }
  }

  // ---------------------------------------------------------------------
  // The constructor's passes, for one entry `$option => $master`
  // ---------------------------------------------------------------------

  /** Why the constructor throws. */
  datatype ResolveError =
    | IfNullMissing(option: string, partner: Value)  // OptionsException: required if the partner is absent
    | RequiredMissing(option: string)               // OptionsException: required option not provided
    | ValueMismatch(option: string, value: Value)   // OptionsValueException: the filter rejected the value

  /** How `$this->$option` reads a name back. */
  datatype Lookup =
    | Exact      // Options.class.php `__get`: the exact key or null
    | Spellings  // Options.php `__get` = `getOption`: key, option map, hyphenated spellings

  /** `array_key_exists($settings[$master]['ifNull'], $this->_options)`: only a
      string can name a key here; any other value finds nothing. */
  predicate HasKey(values: OMap<Value>, key: Value) {
    key.Str? && key.s in values.m
  }

  predicate IfNullFails(values: OMap<Value>, option: string, a: Attrs) {
    Truthy(a.ifNull) && !HasKey(values, a.ifNull) && option !in values.m
  }

  /** Boolean false: an absent boolean option is `false`, under its master and
      under the aliases listed in the settings of the entry's own name. */
  function BooleanFalse(values: OMap<Value>, option: string, master: string, a: Attrs, own: Attrs): OMap<Value> {
    if option !in values.m && a.boolean == Bool(true) then PutAll(values, own.aliases, Bool(false)).Put(master, Bool(false))
    else values
  }

  /** Defaults: a present option with an optional value, defaults and no
      ifMissing is overwritten by its defaults, master and aliases. */
  predicate DefaultsApply(values: OMap<Value>, option: string, a: Attrs) {
    option in values.m && a.ifMissing == Null && Truthy(a.hasValue) && Truthy(a.optionalValue) && a.defaults != Null
  }

  function Defaults(values: OMap<Value>, option: string, master: string, a: Attrs): OMap<Value> {
    if DefaultsApply(values, option, a) then PutAll(values, a.aliases, a.defaults).Put(master, a.defaults)
    else values
  }

  /** IfMissing: an absent option with an ifMissing value receives it. */
  function IfMissing(values: OMap<Value>, option: string, master: string, a: Attrs, own: Attrs): OMap<Value> {
    if option !in values.m && a.ifMissing != Null then PutAll(values, own.aliases, a.ifMissing).Put(master, a.ifMissing)
    else values
  }

  /** `getOption($name)`: the exact key, then the master the option map names,
      then the underscore and camelCase spellings of a hyphenated name. */
  function GetOption(values: OMap<Value>, optionMap: OMap<string>, name: string): Value {
    if name in values.m then values.m[name]
    else if name in optionMap.m then ValueAt(values, optionMap.m[name])
    else if FirstIndex(name, '-').Some? then
      var spellings := Mangle(name);
      if spellings[0] in optionMap.m then ValueAt(values, optionMap.m[spellings[0]])
      else if spellings[1] in optionMap.m then ValueAt(values, optionMap.m[spellings[1]])
      else Null
    else Null
  }

  /** `$this->$name` */
  function Read(lookup: Lookup, values: OMap<Value>, optionMap: OMap<string>, name: string): Value {
    match lookup
    case Exact => ValueAt(values, name)
    case Spellings => GetOption(values, optionMap, name)
  }

  /** Filter: `call_user_func($filter, $this->$option)`, run only for an option
      that takes a value. The callback is the parameter `apply`. */
  function Filter(values: OMap<Value>, option: string, master: string, a: Attrs, optionMap: OMap<string>,
                  lookup: Lookup, apply: (Value, Value) -> Value): Result<OMap<Value>, ResolveError> {
    if Truthy(a.hasValue) && Truthy(a.filter) then
      if Truthy(apply(a.filter, Read(lookup, values, optionMap, option))) then Ok(values)
      else if a.filterFailure == Null then Err(ValueMismatch(option, ValueAt(values, option)))
      else Ok(values.Put(master, a.filterFailure))
    else Ok(values)
  }

  /** The six passes for one entry of the option map, in the constructor's order. */
  function ResolveEntry(values: OMap<Value>, option: string, master: string, settings: map<string, Record>,
                        optionMap: OMap<string>, lookup: Lookup, apply: (Value, Value) -> Value): Result<OMap<Value>, ResolveError> {
    var a := Setting(settings, master);
    var own := Setting(settings, option);
    if IfNullFails(values, option, a) then Err(IfNullMissing(option, a.ifNull))
    else
      var v := IfMissing(Defaults(BooleanFalse(values, option, master, a, own), option, master, a), option, master, a, own);
      if option !in v.m && a.required == Bool(true) then Err(RequiredMissing(option))
      else Filter(v, option, master, a, optionMap, lookup, apply)
  }

  /** The constructor's loop over the option map, from a given entry on. */
  function ResolveFrom(values: OMap<Value>, keys: seq<string>, settings: map<string, Record>, optionMap: OMap<string>,
                       lookup: Lookup, apply: (Value, Value) -> Value): Result<OMap<Value>, ResolveError>
    decreases |keys|
  {
    if keys == [] then Ok(values)
    else
      match ResolveEntry(values, keys[0], MasterOf(optionMap.m, keys[0]), settings, optionMap, lookup, apply)
      case Err(e) => Err(e)
      case Ok(v) => ResolveFrom(v, keys[1..], settings, optionMap, lookup, apply)
  }

  /** What the constructor computes: the parsed values after every entry's passes, or the error it throws. */
  function Resolve(parsed: Parsed, settings: map<string, Record>, optionMap: OMap<string>,
                   lookup: Lookup, apply: (Value, Value) -> Value): Result<OMap<Value>, ResolveError> {
    ResolveFrom(ParseOptions(parsed.opts, settings, optionMap.m), optionMap.keys, settings, optionMap, lookup, apply)
  }

  // ---------------------------------------------------------------------
  // What each pass promises
  // ---------------------------------------------------------------------

  /** The requiredIfNull pass throws exactly when the option and its partner are both absent. */
  lemma IfNullThrows(values: OMap<Value>, option: string, master: string, settings: map<string, Record>,
                     optionMap: OMap<string>, lookup: Lookup, apply: (Value, Value) -> Value)
    ensures var a := Setting(settings, master);
      ResolveEntry(values, option, master, settings, optionMap, lookup, apply) == Err(IfNullMissing(option, a.ifNull))
      <==> Truthy(a.ifNull) && !HasKey(values, a.ifNull) && option !in values.m
  {
  }

  /** An absent boolean option is `false` under its master and its own aliases afterwards. */
  lemma BooleanFalseSets(values: OMap<Value>, option: string, master: string, a: Attrs, own: Attrs)
    requires option !in values.m && a.boolean == Bool(true)
    ensures var r := BooleanFalse(values, option, master, a, own);
      && master in r.m && r.m[master] == Bool(false)
      && (forall n :: n in own.aliases ==> n in r.m && r.m[n] == Bool(false))
      && (forall n :: n != master && n !in own.aliases ==> (n in r.m <==> n in values.m) && (n in r.m ==> r.m[n] == values.m[n]))
  {
    PutAllSpec(values, own.aliases, Bool(false));
  }

  /** A present option with an optional value and defaults gets its defaults,
      even when a value was given on the command line. */
  lemma DefaultsOverwrite(values: OMap<Value>, option: string, master: string, a: Attrs)
    requires DefaultsApply(values, option, a)
    ensures var r := Defaults(values, option, master, a);
      && master in r.m && r.m[master] == a.defaults
      && (forall n :: n in a.aliases ==> n in r.m && r.m[n] == a.defaults)
      && (forall n :: n != master && n !in a.aliases ==> (n in r.m <==> n in values.m) && (n in r.m ==> r.m[n] == values.m[n]))
  {
    PutAllSpec(values, a.aliases, a.defaults);
  }

  /** An absent option with an ifMissing value receives it under its master and its own aliases. */
  lemma IfMissingSets(values: OMap<Value>, option: string, master: string, a: Attrs, own: Attrs)
    requires option !in values.m && a.ifMissing != Null
    ensures var r := IfMissing(values, option, master, a, own);
      && master in r.m && r.m[master] == a.ifMissing
      && (forall n :: n in own.aliases ==> n in r.m && r.m[n] == a.ifMissing)
  {
    PutAllSpec(values, own.aliases, a.ifMissing);
  }

  /** For an option's own entry, the required check fails exactly when the
      option is absent, required, not boolean, and has no ifMissing value:
      ifMissing is assigned before the check, so it satisfies it. */
  lemma RequiredThrows(values: OMap<Value>, m: string, settings: map<string, Record>,
                       optionMap: OMap<string>, lookup: Lookup, apply: (Value, Value) -> Value)
    ensures var a := Setting(settings, m);
      ResolveEntry(values, m, m, settings, optionMap, lookup, apply) == Err(RequiredMissing(m))
      <==> !IfNullFails(values, m, a) && m !in values.m && a.required == Bool(true)
           && a.ifMissing == Null && a.boolean != Bool(true)
  {
    var a := Setting(settings, m);
    var own := Setting(settings, m);
    var v0 := BooleanFalse(values, m, m, a, own);
    var v1 := Defaults(v0, m, m, a);
    var v := IfMissing(v1, m, m, a, own);
    if m !in values.m && a.boolean == Bool(true) {
      BooleanFalseSets(values, m, m, a, own);
    }
    if m !in v1.m && a.ifMissing != Null {
      IfMissingSets(v1, m, m, a, own);
    }
    if m in values.m {
      assert m in v0.m && m in v1.m && m in v.m;
    }
    match Filter(v, m, m, a, optionMap, lookup, apply)
    case Ok(_) =>
    case Err(e) => assert e.ValueMismatch?;
  }

  /** A rejected value throws when no filterFailure is set; otherwise only the
      master entry takes the filterFailure value and the aliases keep theirs. */
  lemma FilterOutcome(values: OMap<Value>, option: string, master: string, a: Attrs, optionMap: OMap<string>,
                      lookup: Lookup, apply: (Value, Value) -> Value)
    ensures !Truthy(a.hasValue) || !Truthy(a.filter) ==> Filter(values, option, master, a, optionMap, lookup, apply) == Ok(values)
    ensures Truthy(a.hasValue) && Truthy(a.filter) && !Truthy(apply(a.filter, Read(lookup, values, optionMap, option))) ==>
      if a.filterFailure == Null then Filter(values, option, master, a, optionMap, lookup, apply).Err?
      else
        var r := Filter(values, option, master, a, optionMap, lookup, apply);
        && r.Ok? && master in r.value.m && r.value.m[master] == a.filterFailure
        && forall n :: n != master ==> (n in r.value.m <==> n in values.m) && (n in values.m ==> r.value.m[n] == values.m[n])
  {
  }

  // ---------------------------------------------------------------------
  // Reading a name back
  // ---------------------------------------------------------------------

  /** `getOption` tries the exact key first, then the option map, and only for
      a hyphenated name the underscore spelling (the name with each `-` made
      `_`) and then the camelCase one. */
  lemma GetOptionOrder(values: OMap<Value>, optionMap: OMap<string>, name: string)
    ensures name in values.m ==> GetOption(values, optionMap, name) == values.m[name]
    ensures name !in values.m && name in optionMap.m ==> GetOption(values, optionMap, name) == ValueAt(values, optionMap.m[name])
    ensures name !in values.m && name !in optionMap.m && '-' !in name ==> GetOption(values, optionMap, name) == Null
    ensures name !in values.m && name !in optionMap.m && '-' in name && MapChar(name, '-', '_') in optionMap.m ==>
      GetOption(values, optionMap, name) == ValueAt(values, optionMap.m[MapChar(name, '-', '_')])
  {
    if '-' in name {
      UnderscoreSpelling(name);
    }
  }

  /** `std-out` is read through an option map entry for `stdOut` when neither
      the name nor `std_out` is known. */
  lemma GetOptionCamelCase(values: OMap<Value>, optionMap: OMap<string>)
    requires "std-out" !in values.m && "std-out" !in optionMap.m && "std_out" !in optionMap.m && "stdOut" in optionMap.m
    ensures GetOption(values, optionMap, "std-out") == ValueAt(values, optionMap.m["stdOut"])
  {
    MangleExample();
    assert "std-out"[3] == '-';
  }

  /** The exact lookup of Options.class.php does not follow the option map:
      an alias stored nowhere reads as null there, but as its master's value
      through `getOption`. */
  lemma ExactIgnoresOptionMap(values: OMap<Value>, optionMap: OMap<string>, alias: string, master: string)
    requires alias !in values.m && alias in optionMap.m && optionMap.m[alias] == master && master in values.m
    ensures Read(Exact, values, optionMap, alias) == Null
    ensures Read(Spellings, values, optionMap, alias) == values.m[master]
  {
  }

  // ---------------------------------------------------------------------
  // The container
  // ---------------------------------------------------------------------

  /** `Options`: the resolved values, the positional arguments and the option map. */
  class Options {
    var values: OMap<Value>        // `$_options`
    var positionals: seq<string>   // `$_args`
    const optionMap: OMap<string>
    const lookup: Lookup

    /** The constructor up to its loop: `parseOptions` and the positionals. */
    constructor (parsed: Parsed, settings: map<string, Record>, optionMap: OMap<string>, lookup: Lookup)
      ensures this.optionMap == optionMap && this.lookup == lookup
      ensures values == ParseOptions(parsed.opts, settings, optionMap.m)
      ensures positionals == parsed.nonOpts
    {
      this.optionMap := optionMap;
      this.lookup := lookup;
      var v := ParseOccurrences(parsed.opts, settings, optionMap.m);
      values := v;
      positionals := parsed.nonOpts;
    }

    /** The constructor's loop over the option map; a thrown exception is the returned error. */
    method ResolveAll(settings: map<string, Record>, apply: (Value, Value) -> Value) returns (failure: Option<ResolveError>)
      modifies this
      ensures positionals == old(positionals)
      ensures match ResolveFrom(old(values), optionMap.keys, settings, optionMap, lookup, apply)
        case Ok(v) => failure == None && values == v
        case Err(e) => failure == Some(e)
    {
      var keys := optionMap.keys;
      for i := 0 to |keys|
        invariant positionals == old(positionals)
        invariant ResolveFrom(values, keys[i..], settings, optionMap, lookup, apply) == ResolveFrom(old(values), keys, settings, optionMap, lookup, apply)
      {
        assert keys[i..][0] == keys[i] && keys[i..][1..] == keys[i + 1..];
        failure := ResolveOne(keys[i], settings, apply);
        if failure.Some? {
          return;
        }
      }
      failure := None;
    }

    /** The six passes for the entry `$option => $optionMap[$option]`. */
    method ResolveOne(option: string, settings: map<string, Record>, apply: (Value, Value) -> Value) returns (failure: Option<ResolveError>)
      modifies this
      ensures positionals == old(positionals)
      ensures match ResolveEntry(old(values), option, MasterOf(optionMap.m, option), settings, optionMap, lookup, apply)
        case Ok(v) => failure == None && values == v
        case Err(e) => failure == Some(e)
    {
      var master := MasterOf(optionMap.m, option);
      var a := Setting(settings, master);
      var own := Setting(settings, option);
      ghost var v0 := values;
      if Truthy(a.ifNull) && !HasKey(values, a.ifNull) && option !in values.m {
        assert IfNullFails(v0, option, a);
        return Some(IfNullMissing(option, a.ifNull));
      }
      assert !IfNullFails(v0, option, a);
      if option !in values.m && a.boolean == Bool(true) {
        AssignAll(own.aliases, Bool(false));
        values := values.Put(master, Bool(false));
      }
      ghost var v1 := values;
      assert v1 == BooleanFalse(v0, option, master, a, own);
      if option in values.m && a.ifMissing == Null && Truthy(a.hasValue) && Truthy(a.optionalValue) && a.defaults != Null {
        AssignAll(a.aliases, a.defaults);
        values := values.Put(master, a.defaults);
      }
      ghost var v2 := values;
      assert v2 == Defaults(v1, option, master, a);
      if option !in values.m && a.ifMissing != Null {
        AssignAll(own.aliases, a.ifMissing);
        values := values.Put(master, a.ifMissing);
      }
      ghost var v3 := values;
      assert v3 == IfMissing(v2, option, master, a, own);
      if option !in values.m && a.required == Bool(true) {
        return Some(RequiredMissing(option));
      }
      if Truthy(a.hasValue) && Truthy(a.filter) {
        var accepted := Truthy(apply(a.filter, Get(option)));
        assert Get(option) == Read(lookup, v3, optionMap, option);
        if !accepted && a.filterFailure == Null {
          return Some(ValueMismatch(option, ValueAt(values, option)));
        } else if !accepted {
          values := values.Put(master, a.filterFailure);
        }
      }
      failure := None;
    }

    /** `foreach (... as $alias) $this->_options[$alias] = $v;` */
    method AssignAll(names: seq<string>, v: Value)
      modifies this
      ensures values == PutAll(old(values), names, v)
      ensures positionals == old(positionals)
    {
      for j := 0 to |names|
        invariant positionals == old(positionals)
        invariant PutAll(values, names[j..], v) == PutAll(old(values), names, v)
      {
        assert names[j..][0] == names[j] && names[j..][1..] == names[j + 1..];
        values := values.Put(names[j], v);
      }
    }

    /** `__get($name)` */
    function Get(name: string): (r: Value)
      reads this
      ensures lookup == Exact ==> r == ValueAt(values, name) && (r != Null ==> name in values.m)
      ensures lookup == Spellings ==> r == GetOption(values, optionMap, name)
      ensures lookup == Spellings && name in values.m ==> r == values.m[name]
    {
      Read(lookup, values, optionMap, name)
    }

    /** `args()`: the positional arguments, in order. */
    function Args(): (r: seq<string>)
      reads this
      ensures |r| == |positionals|
    {
      positionals
    }

    /** `args($offset)`: the positional at that index, or null when there is none. */
    function ArgAt(offset: int): (r: Option<string>)
      reads this
      ensures r.Some? <==> 0 <= offset < |Args()|
      ensures r.Some? ==> r.value == Args()[offset]
    {
      if 0 <= offset < |positionals| then Some(positionals[offset]) else None
    }
  }

  /** `new Options($options, $settings, $optionMap, $help)`: the resolved
      container, or the exception its constructor throws. */
  method NewOptions(parsed: Parsed, settings: map<string, Record>, optionMap: OMap<string>, lookup: Lookup,
                    apply: (Value, Value) -> Value) returns (r: Result<Options, ResolveError>)
    ensures r.Ok? <==> Resolve(parsed, settings, optionMap, lookup, apply).Ok?
    ensures r.Ok? ==> (fresh(r.value) && r.value.values == Resolve(parsed, settings, optionMap, lookup, apply).value
      && r.value.positionals == parsed.nonOpts && r.value.optionMap == optionMap && r.value.lookup == lookup)
    ensures r.Err? ==> r.error == Resolve(parsed, settings, optionMap, lookup, apply).error
  {
    var o := new Options(parsed, settings, optionMap, lookup);
    var failure := o.ResolveAll(settings, apply);
    if failure.Some? {
      return Err(failure.value);
    }
    return Ok(o);
  }
}
