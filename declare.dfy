/** From declared options to the tokenizer's input. Each builder generation walks
    its option records in declaration order and hands every name and alias, with
    the suffix `getSuffixForOption` gives it, to the `appendOpts` closure: a
    one-character name goes to the short spec string, any other name to the
    long list. Two of them also build the map from every name to its option. */
module Declare {
  import opened Php
  import opened Getopt
  import opened Naming

  /** A name as declared, with the `value` and `optionalValue` flags of its option. */
  datatype Decl = Decl(name: string, hasValue: Value, optional: Value)

  /** The arity the flags ask for: a value when `value` is set, an optional one
      when `optionalValue` is set as well. */
  function Expected(d: Decl): Arity {
    if Truthy(d.hasValue) && Truthy(d.optional) then OptionalValue
    else if Truthy(d.hasValue) then RequiredValue
    else NoValue
  }

  function DeclSuffix(d: Decl): string {
    SuffixFor(d.name, d.hasValue, d.optional)
  }

  /** What `appendOpts` adds to the short spec string for one name. */
  function ShortPart(d: Decl): string {
    if |d.name| == 1 then d.name + DeclSuffix(d) else ""
  }

  /** The short spec string for a sequence of declarations. */
  function ShortSpec(ds: seq<Decl>): string {
    if ds == [] then "" else ShortPart(ds[0]) + ShortSpec(ds[1..])
  }

  /** What `appendOpts` adds to the long list for one name. */
  function LongPart(d: Decl): seq<string> {
    if |d.name| != 1 then [d.name + DeclSuffix(d)] else []
  }

  /** The long spec list for a sequence of declarations. */
  function LongSpec(ds: seq<Decl>): seq<string> {
    if ds == [] then [] else LongPart(ds[0]) + LongSpec(ds[1..])
  }

  /** An option's names, each with the option's flags. */
  function NameDecls(names: seq<string>, hasValue: Value, optional: Value): (r: seq<Decl>)
    ensures |r| == |names|
    ensures forall i :: 0 <= i < |names| ==> r[i] == Decl(names[i], hasValue, optional)
  {
    if names == [] then [] else [Decl(names[0], hasValue, optional)] + NameDecls(names[1..], hasValue, optional)
  }

  /** An option and then each of its aliases, all with the option's flags. */
  function RecordDecls(name: string, prefs: Record): seq<Decl> {
    NameDecls([name] + Aliases(prefs), Field(prefs, "value"), Field(prefs, "optionalValue"))
  }

  /** The declarations of the options named by `keys`, in that order. */
  function DeclsOf(keys: seq<string>, options: map<string, Record>): seq<Decl> {
    if keys == [] then [] else RecordDecls(keys[0], RecordAt(options, keys[0])) + DeclsOf(keys[1..], options)
  }

  // ---------------------------------------------------------------------
  // The suffix round trip: what the tokenizer reads back
  // ---------------------------------------------------------------------

  /** `getSuffixForOption` says what the flags ask for, in the tokenizer's own
      terms: read after a one-character name it is the expected arity, and a
      long declaration carrying it is matched by the bare name with that arity. */
  lemma SuffixRoundTrip(d: Decl, rest: string)
    requires |d.name| == 1 ==> rest == [] || rest[0] != ':'
    ensures |d.name| == 1 ==> SuffixArity(DeclSuffix(d) + rest) == Expected(d)
    ensures |d.name| != 1 && '=' !in d.name ==>
      LongArity(d.name + DeclSuffix(d)) == Expected(d) && LongName(d.name + DeclSuffix(d)) == d.name
  {
    if |d.name| != 1 && '=' !in d.name {
      LongNameStrips(d.name, DeclSuffix(d));
      LongSuffixArity(d);
    }
  }

  lemma LongSuffixArity(d: Decl)
    requires |d.name| != 1 && '=' !in d.name
    ensures LongArity(d.name + DeclSuffix(d)) == Expected(d)
  {
    var s := d.name + DeclSuffix(d);
    if DeclSuffix(d) == "" {
      assert s == d.name;
      assert |s| > 0 ==> s[|s| - 1] in d.name;
    } else if DeclSuffix(d) == "=" {
      assert s[|s| - 1] == '=';
      assert |s| >= 2 ==> s[|s| - 2] in d.name;
      assert LastTwo(s) != "==";
    } else {
      assert LastTwo(s) == "==";
    }
  }

  /** Removing `=` from a name without one followed by `=` signs gives the name. */
  lemma {:induction false} LongNameStrips(name: string, eqs: string)
    requires '=' !in name && forall k :: 0 <= k < |eqs| ==> eqs[k] == '='
    ensures LongName(name + eqs) == name
    decreases |name| + |eqs|
  {
    if name != [] {
      var s := name + eqs;
      assert s[0] == name[0] && name[0] in name;
      assert s[..1] == [s[0]] && s[..1] != "=" && s[1..] == name[1..] + eqs;
      LongNameStrips(name[1..], eqs);
      assert name == [name[0]] + name[1..];
    } else if eqs != [] {
      assert eqs[..1] == "=" && eqs[1..] == [] + eqs[1..];
      LongNameStrips(name, eqs[1..]);
      assert [] + eqs == eqs;
    }
  }

  /** The first one-character declaration of `c`. */
  function FirstShort(ds: seq<Decl>, c: char): Option<Decl> {
    if ds == [] then None
    else if ds[0].name == [c] then Some(ds[0])
    else FirstShort(ds[1..], c)
  }

  predicate NoColonName(ds: seq<Decl>) {
    forall k :: 0 <= k < |ds| ==> ds[k].name != ":"
  }

  /** A short spec string never starts with `:`, so it cannot extend the suffix
      of a declaration before it. */
  lemma {:induction false} ShortSpecStart(ds: seq<Decl>)
    requires NoColonName(ds)
    ensures ShortSpec(ds) == [] || ShortSpec(ds)[0] != ':'
  {
    if ds != [] {
      if |ds[0].name| != 1 {
        ShortSpecStart(ds[1..]);
      }
    }
  }

  lemma FirstIndexAfter(a: string, b: string, c: char)
    requires c !in a
    ensures FirstIndex(a + b, c) == match FirstIndex(b, c) case None => None case Some(k) => Some(|a| + k)
  {
    var s := a + b;
    match FirstIndex(b, c)
    case None =>
      assert c !in s by {
        forall j | 0 <= j < |s| ensures s[j] != c {
          if j >= |a| {
            assert s[j] == b[j - |a|];
          }
        }
      }
    case Some(k) =>
      assert s[|a| + k] == c;
      assert s[..|a| + k] == a + b[..k];
      assert c !in s[..|a| + k];
      var f := FirstIndex(s, c);
      assert f.Some?;
      assert f.value == |a| + k;
  }

  /** Every one-character name is read back by the tokenizer with the arity its
      flags declare, and a letter never declared is unrecognized. Where a letter
      is declared twice, the first declaration decides. */
  lemma {:induction false} ShortRoundTrip(ds: seq<Decl>, c: char)
    requires NoColonName(ds) && c != ':'
    ensures ShortArity(ShortSpec(ds), c) ==
      match FirstShort(ds, c) case None => None case Some(d) => Some(Expected(d))
  {
    if ds != [] {
      assert ShortSpec(ds) == ShortPart(ds[0]) + ShortSpec(ds[1..]);
      ShortSpecStart(ds[1..]);
      if ds[0].name == [c] {
        ShortHead(ds[0], ShortSpec(ds[1..]), c);
      } else {
        ShortRoundTrip(ds[1..], c);
        ShortSkip(ds[0], ShortSpec(ds[1..]), c);
      }
    }
  }

  lemma ShortHead(d: Decl, rest: string, c: char)
    requires d.name == [c] && (rest == [] || rest[0] != ':')
    ensures FirstIndex(ShortPart(d) + rest, c) == Some(0)
    ensures SuffixArity((ShortPart(d) + rest)[1..]) == Expected(d)
  {
    SuffixRoundTrip(d, rest);
    assert (ShortPart(d) + rest)[0] == c;
    assert (ShortPart(d) + rest)[1..] == DeclSuffix(d) + rest;
  }

  lemma ShortSkip(d: Decl, rest: string, c: char)
    requires d.name != [c] && c != ':'
    ensures ShortArity(ShortPart(d) + rest, c) == ShortArity(rest, c)
  {
    var part := ShortPart(d);
    ShortPartFree(d, c);
    FirstIndexAfter(part, rest, c);
    match FirstIndex(rest, c)
    case None =>
    case Some(k) =>
      assert (part + rest)[|part| + k + 1..] == rest[k + 1..];
  }

  /** A one-character declaration of another letter never holds `c` in its part of the spec. */
  lemma ShortPartFree(d: Decl, c: char)
    requires d.name != [c] && c != ':'
    ensures c !in ShortPart(d)
  {
    var part := ShortPart(d);
    if |d.name| == 1 {
      var suffix := DeclSuffix(d);
      assert suffix == "" || suffix == ":" || suffix == "::";
      assert part == d.name + suffix;
      forall k | 0 <= k < |part| ensures part[k] != c {
        if k == 0 {
          assert part[k] == d.name[0];
        }
      }
    }
  }

  /** Every entry of the long list is a long declaration's name with its suffix. */
  lemma {:induction false} LongSpecFrom(ds: seq<Decl>, x: string)
    requires x in LongSpec(ds)
    ensures exists k :: 0 <= k < |ds| && |ds[k].name| != 1 && x == ds[k].name + DeclSuffix(ds[k])
  {
    var head := if |ds[0].name| != 1 then [ds[0].name + DeclSuffix(ds[0])] else [];
    assert LongSpec(ds) == head + LongSpec(ds[1..]);
    if x in head {
      assert x == ds[0].name + DeclSuffix(ds[0]);
    } else {
      LongSpecFrom(ds[1..], x);
      var k :| 0 <= k < |ds[1..]| && |ds[1..][k].name| != 1 && x == ds[1..][k].name + DeclSuffix(ds[1..][k]);
      assert ds[k + 1] == ds[1..][k];
    }
  }

  lemma {:induction false} LongSpecHas(ds: seq<Decl>, k: nat)
    requires k < |ds| && |ds[k].name| != 1
    ensures ds[k].name + DeclSuffix(ds[k]) in LongSpec(ds)
  {
    var head := if |ds[0].name| != 1 then [ds[0].name + DeclSuffix(ds[0])] else [];
    assert LongSpec(ds) == head + LongSpec(ds[1..]);
    if k > 0 {
      LongSpecHas(ds[1..], k - 1);
    }
  }

  /** Long names are free of `=` and two declarations of one long name ask for
      the same arity. */
  predicate LongConsistent(ds: seq<Decl>) {
    && (forall k :: 0 <= k < |ds| && |ds[k].name| != 1 ==> '=' !in ds[k].name)
    && (forall i, j :: 0 <= i < |ds| && 0 <= j < |ds| && |ds[i].name| != 1 && ds[i].name == ds[j].name ==>
          Expected(ds[i]) == Expected(ds[j]))
  }

  /** Every long name is found by exact match in the sorted long list the
      tokenizer searches, and the declaration found there has the arity its
      flags declare. */
  lemma LongRoundTrip(ds: seq<Decl>, k: nat)
    requires k < |ds| && |ds[k].name| != 1 && LongConsistent(ds)
    ensures var sorted := Sort(LongSpec(ds));
      FindLong(sorted, ds[k].name, 0).Some?
      && LongArity(sorted[FindLong(sorted, ds[k].name, 0).value]) == Expected(ds[k])
  {
    var longs := LongSpec(ds);
    var sorted := Sort(longs);
    var d := ds[k];
    LongSpecHas(ds, k);
    SuffixRoundTrip(d, "");
    assert d.name + DeclSuffix(d) in multiset(longs);
    assert d.name + DeclSuffix(d) in sorted by {
      assert d.name + DeclSuffix(d) in multiset(sorted);
    }
    var at :| 0 <= at < |sorted| && sorted[at] == d.name + DeclSuffix(d);
    assert LongName(sorted[at]) == d.name;
    var found := FindLong(sorted, d.name, 0);
    assert found.Some?;
    var x := sorted[found.value];
    assert x in multiset(sorted);
    assert x in longs by {
      assert x in multiset(longs);
    }
    LongSpecFrom(ds, x);
    var j :| 0 <= j < |ds| && |ds[j].name| != 1 && x == ds[j].name + DeclSuffix(ds[j]);
    SuffixRoundTrip(ds[j], "");
    assert ds[j].name == d.name;
  }

  // ---------------------------------------------------------------------
  // Building the spec strings, as the builders' loops do
  // ---------------------------------------------------------------------

  lemma {:induction false} ShortSpecAppend(a: seq<Decl>, b: seq<Decl>)
    ensures ShortSpec(a + b) == ShortSpec(a) + ShortSpec(b)
  {
    if a != [] {
      assert (a + b)[0] == a[0] && (a + b)[1..] == a[1..] + b;
      ShortSpecAppend(a[1..], b);
    } else {
      assert a + b == b;
    }
  }

  lemma {:induction false} LongSpecAppend(a: seq<Decl>, b: seq<Decl>)
    ensures LongSpec(a + b) == LongSpec(a) + LongSpec(b)
  {
    if a != [] {
      assert (a + b)[0] == a[0] && (a + b)[1..] == a[1..] + b;
      LongSpecAppend(a[1..], b);
    } else {
      assert a + b == b;
    }
  }

  lemma {:induction false} DeclsOfAppend(a: seq<string>, b: seq<string>, options: map<string, Record>)
    ensures DeclsOf(a + b, options) == DeclsOf(a, options) + DeclsOf(b, options)
  {
    if a != [] {
      assert (a + b)[0] == a[0] && (a + b)[1..] == a[1..] + b;
      DeclsOfAppend(a[1..], b, options);
    } else {
      assert a + b == b;
    }
  }

  /** The names an option answers to: its own and then its aliases. */
  function NamesOf(options: map<string, Record>, key: string): seq<string> {
    [key] + Aliases(RecordAt(options, key))
  }

  /** The option map `argv` and `prepareOptionCache` build: each option name,
      then each of its aliases, mapped to the option; a later assignment to a
      name overwrites the earlier one. */
  function OptionMapOf(keys: seq<string>, options: map<string, Record>, acc: OMap<string>): (r: OMap<string>)
    ensures acc.Valid() ==> r.Valid()
  {
    if keys == [] then acc
    else OptionMapOf(keys[1..], options, PutAll(acc, NamesOf(options, keys[0]), keys[0]))
  }

  /** Every entry of the map leads to one of `keys`, an option that answers to that name. */
  ghost predicate MapsToOwner(optionMap: OMap<string>, keys: seq<string>, options: map<string, Record>) {
    forall n :: n in optionMap.m ==> optionMap.m[n] in keys && n in NamesOf(options, optionMap.m[n])
  }

  /** Every name and alias of every option is in the map. */
  lemma {:induction false} OptionMapCovers(keys: seq<string>, options: map<string, Record>, acc: OMap<string>)
    ensures var r := OptionMapOf(keys, options, acc);
      (forall n :: n in acc.m ==> n in r.m)
      && (forall i, n :: 0 <= i < |keys| && n in NamesOf(options, keys[i]) ==> n in r.m)
  {
    if keys != [] {
      var next := PutAll(acc, NamesOf(options, keys[0]), keys[0]);
      PutAllSpec(acc, NamesOf(options, keys[0]), keys[0]);
      OptionMapCovers(keys[1..], options, next);
      var r := OptionMapOf(keys, options, acc);
      assert r == OptionMapOf(keys[1..], options, next);
      forall i, n | 0 <= i < |keys| && n in NamesOf(options, keys[i]) ensures n in r.m {
        if i > 0 {
          assert keys[1..][i - 1] == keys[i];
        }
      }
    }
  }

  lemma MapNamesOwners(acc: OMap<string>, option: string, seen: seq<string>, options: map<string, Record>)
    requires MapsToOwner(acc, seen, options)
    ensures MapsToOwner(PutAll(acc, NamesOf(options, option), option), seen + [option], options)
  {
    PutAllSpec(acc, NamesOf(options, option), option);
  }

  /** Every entry of the map leads to an option that answers to that name. */
  lemma {:induction false} OptionMapOwners(keys: seq<string>, options: map<string, Record>, acc: OMap<string>, seen: seq<string>)
    requires MapsToOwner(acc, seen, options)
    ensures MapsToOwner(OptionMapOf(keys, options, acc), seen + keys, options)
  {
    if keys != [] {
      var next := PutAll(acc, NamesOf(options, keys[0]), keys[0]);
      MapNamesOwners(acc, keys[0], seen, options);
      OptionMapOwners(keys[1..], options, next, seen + [keys[0]]);
      assert seen + [keys[0]] + keys[1..] == seen + keys;
    } else {
      assert seen + keys == seen;
    }
  }

  /** The option map `argv` builds answers every name and alias, each with an
      option that declares it. */
  lemma OptionMapSound(keys: seq<string>, options: map<string, Record>)
    ensures var r := OptionMapOf(keys, options, EmptyMap());
      (forall i, n :: 0 <= i < |keys| && n in NamesOf(options, keys[i]) ==> n in r.m)
      && MapsToOwner(r, keys, options)
  {
    OptionMapCovers(keys, options, EmptyMap());
    OptionMapOwners(keys, options, EmptyMap(), []);
    assert [] + keys == keys;
  }

  /** What the loop in `argv` has built so far: `$shortOpts`, `$longOpts` and `$optionMap`. */
  datatype Built = Built(shortOpts: string, longOpts: seq<string>, optionMap: OMap<string>)

  /** One name handed to `appendOpts` and mapped to its option. */
  function AddName(b: Built, option: string, hasValue: Value, optional: Value, name: string): Built {
    var d := Decl(name, hasValue, optional);
    Built(b.shortOpts + ShortPart(d), b.longOpts + LongPart(d), b.optionMap.Put(name, option))
  }

  function AddNames(b: Built, option: string, hasValue: Value, optional: Value, names: seq<string>): Built
    decreases |names|
  {
    if names == [] then b else AddNames(AddName(b, option, hasValue, optional, names[0]), option, hasValue, optional, names[1..])
  }

  /** One option record: its name and aliases, with its flags. */
  function AddOption(b: Built, key: string, options: map<string, Record>): Built {
    var prefs := RecordAt(options, key);
    AddNames(b, key, Field(prefs, "value"), Field(prefs, "optionalValue"), NamesOf(options, key))
  }

  /** The loop over the option records, left to right. */
  function BuildFrom(b: Built, keys: seq<string>, options: map<string, Record>): Built
    decreases |keys|
  {
    if keys == [] then b else BuildFrom(AddOption(b, keys[0], options), keys[1..], options)
  }

  lemma AddOptionSpec(b: Built, key: string, options: map<string, Record>)
    ensures var r := AddOption(b, key, options);
      && r.shortOpts == b.shortOpts + ShortSpec(RecordDecls(key, RecordAt(options, key)))
      && r.longOpts == b.longOpts + LongSpec(RecordDecls(key, RecordAt(options, key)))
      && r.optionMap == PutAll(b.optionMap, NamesOf(options, key), key)
  {
    var prefs := RecordAt(options, key);
    AddNamesSpec(b, key, Field(prefs, "value"), Field(prefs, "optionalValue"), NamesOf(options, key));
  }

  lemma AddNamesSpec(b: Built, option: string, hasValue: Value, optional: Value, names: seq<string>)
    ensures AddNames(b, option, hasValue, optional, names) ==
      Built(b.shortOpts + ShortSpec(NameDecls(names, hasValue, optional)),
            b.longOpts + LongSpec(NameDecls(names, hasValue, optional)),
            PutAll(b.optionMap, names, option))
  {
    AddNamesShort(b, option, hasValue, optional, names);
    AddNamesLong(b, option, hasValue, optional, names);
    AddNamesMap(b, option, hasValue, optional, names);
  }

  lemma {:induction false} AddNamesShort(b: Built, option: string, hasValue: Value, optional: Value, names: seq<string>)
    ensures AddNames(b, option, hasValue, optional, names).shortOpts == b.shortOpts + ShortSpec(NameDecls(names, hasValue, optional))
    decreases |names|
  {
    if names != [] {
      var d := Decl(names[0], hasValue, optional);
      var rest := NameDecls(names[1..], hasValue, optional);
      var b1 := AddName(b, option, hasValue, optional, names[0]);
      AddNamesShort(b1, option, hasValue, optional, names[1..]);
      assert NameDecls(names, hasValue, optional) == [d] + rest;
      AppendStep(d, rest);
      AppendAssoc(b.shortOpts, ShortPart(d), ShortSpec(rest));
    } else {
      assert b.shortOpts + [] == b.shortOpts;
    }
  }

  lemma {:induction false} AddNamesLong(b: Built, option: string, hasValue: Value, optional: Value, names: seq<string>)
    ensures AddNames(b, option, hasValue, optional, names).longOpts == b.longOpts + LongSpec(NameDecls(names, hasValue, optional))
    decreases |names|
  {
    if names != [] {
      var d := Decl(names[0], hasValue, optional);
      var rest := NameDecls(names[1..], hasValue, optional);
      var b1 := AddName(b, option, hasValue, optional, names[0]);
      AddNamesLong(b1, option, hasValue, optional, names[1..]);
      assert NameDecls(names, hasValue, optional) == [d] + rest;
      AppendStep(d, rest);
      AppendAssoc(b.longOpts, LongPart(d), LongSpec(rest));
    } else {
      assert b.longOpts + [] == b.longOpts;
    }
  }

  lemma {:induction false} AddNamesMap(b: Built, option: string, hasValue: Value, optional: Value, names: seq<string>)
    ensures AddNames(b, option, hasValue, optional, names).optionMap == PutAll(b.optionMap, names, option)
    decreases |names|
  {
    if names != [] {
      AddNamesMap(AddName(b, option, hasValue, optional, names[0]), option, hasValue, optional, names[1..]);
    }
  }

  /** The loop builds the spec strings the declarations call for and the option map. */
  lemma BuildFromSpec(b: Built, keys: seq<string>, options: map<string, Record>)
    ensures BuildFrom(b, keys, options) ==
      Built(b.shortOpts + ShortSpec(DeclsOf(keys, options)),
            b.longOpts + LongSpec(DeclsOf(keys, options)),
            OptionMapOf(keys, options, b.optionMap))
  {
    BuildFromShort(b, keys, options);
    BuildFromLong(b, keys, options);
    BuildFromMap(b, keys, options);
  }

  lemma {:induction false} BuildFromShort(b: Built, keys: seq<string>, options: map<string, Record>)
    ensures BuildFrom(b, keys, options).shortOpts == b.shortOpts + ShortSpec(DeclsOf(keys, options))
    decreases |keys|
  {
    if keys != [] {
      var ds := RecordDecls(keys[0], RecordAt(options, keys[0]));
      var rest := DeclsOf(keys[1..], options);
      var next := AddOption(b, keys[0], options);
      calc {
        BuildFrom(b, keys, options).shortOpts;
        BuildFrom(next, keys[1..], options).shortOpts;
        { BuildFromShort(next, keys[1..], options); }
        next.shortOpts + ShortSpec(rest);
        { AddOptionSpec(b, keys[0], options); }
        b.shortOpts + ShortSpec(ds) + ShortSpec(rest);
        { AppendAssoc(b.shortOpts, ShortSpec(ds), ShortSpec(rest)); }
        b.shortOpts + (ShortSpec(ds) + ShortSpec(rest));
        { ShortSpecAppend(ds, rest); }
        b.shortOpts + ShortSpec(ds + rest);
      }
    } else {
      assert b.shortOpts + [] == b.shortOpts;
    }
  }

  lemma {:induction false} BuildFromLong(b: Built, keys: seq<string>, options: map<string, Record>)
    ensures BuildFrom(b, keys, options).longOpts == b.longOpts + LongSpec(DeclsOf(keys, options))
    decreases |keys|
  {
    if keys != [] {
      var ds := RecordDecls(keys[0], RecordAt(options, keys[0]));
      var rest := DeclsOf(keys[1..], options);
      var next := AddOption(b, keys[0], options);
      calc {
        BuildFrom(b, keys, options).longOpts;
        BuildFrom(next, keys[1..], options).longOpts;
        { BuildFromLong(next, keys[1..], options); }
        next.longOpts + LongSpec(rest);
        { AddOptionSpec(b, keys[0], options); }
        b.longOpts + LongSpec(ds) + LongSpec(rest);
        { AppendAssoc(b.longOpts, LongSpec(ds), LongSpec(rest)); }
        b.longOpts + (LongSpec(ds) + LongSpec(rest));
        { LongSpecAppend(ds, rest); }
        b.longOpts + LongSpec(ds + rest);
      }
    } else {
      assert b.longOpts + [] == b.longOpts;
    }
  }

  lemma {:induction false} BuildFromMap(b: Built, keys: seq<string>, options: map<string, Record>)
    ensures BuildFrom(b, keys, options).optionMap == OptionMapOf(keys, options, b.optionMap)
    decreases |keys|
  {
    if keys != [] {
      var next := AddOption(b, keys[0], options);
      AddOptionSpec(b, keys[0], options);
      BuildFromMap(next, keys[1..], options);
    }
  }

  /** `argv`'s loop over the option records: the short spec string, the long
      list and the option map, as the closure `appendOpts` and the assignments
      to `$optionMap` build them. */
  method BuildSpec(options: OMap<Record>)
    returns (shortOpts: string, longOpts: seq<string>, optionMap: OMap<string>)
    ensures shortOpts == ShortSpec(DeclsOf(options.keys, options.m))
    ensures longOpts == LongSpec(DeclsOf(options.keys, options.m))
    ensures optionMap == OptionMapOf(options.keys, options.m, EmptyMap())
  {
    var keys := options.keys;
    shortOpts, longOpts, optionMap := "", [], EmptyMap();
    for i := 0 to |keys|
      invariant BuildFrom(Built(shortOpts, longOpts, optionMap), keys[i..], options.m) == BuildFrom(Built("", [], EmptyMap()), keys, options.m)
    {
      var option := keys[i];
      var prefs := RecordAt(options.m, option);
      assert keys[i..][0] == option && keys[i..][1..] == keys[i + 1..];
      shortOpts, longOpts, optionMap := AppendOption(shortOpts, longOpts, optionMap, option,
        Field(prefs, "value"), Field(prefs, "optionalValue"), Aliases(prefs));
    }
    BuildFromSpec(Built("", [], EmptyMap()), keys, options.m);
  }

  /** One pass of that loop: the option, then each alias with the option's
      flags, appended to the spec and mapped to the option. */
  method AppendOption(shortOpts: string, longOpts: seq<string>, optionMap: OMap<string>,
                      option: string, hasValue: Value, optional: Value, aliases: seq<string>)
    returns (s: string, l: seq<string>, m: OMap<string>)
    ensures Built(s, l, m) == AddNames(Built(shortOpts, longOpts, optionMap), option, hasValue, optional, [option] + aliases)
  {
    s, l := Append(shortOpts, longOpts, Decl(option, hasValue, optional));
    m := optionMap.Put(option, option);
    assert ([option] + aliases)[1..] == aliases;
    for j := 0 to |aliases|
      invariant AddNames(Built(s, l, m), option, hasValue, optional, aliases[j..]) ==
        AddNames(Built(shortOpts, longOpts, optionMap), option, hasValue, optional, [option] + aliases)
    {
      assert aliases[j..][0] == aliases[j] && aliases[j..][1..] == aliases[j + 1..];
      m := m.Put(aliases[j], option);
      s, l := Append(s, l, Decl(aliases[j], hasValue, optional));
    }
  }

  /** Splitting the first declaration off a sequence of them. */
  lemma AppendStep(d: Decl, rest: seq<Decl>)
    ensures ShortSpec([d] + rest) == ShortPart(d) + ShortSpec(rest)
    ensures LongSpec([d] + rest) == LongPart(d) + LongSpec(rest)
  {
    assert ([d] + rest)[1..] == rest;
  }

  /** `$appendOpts($name, getSuffixForOption(...))` */
  method Append(shortOpts: string, longOpts: seq<string>, d: Decl) returns (s: string, l: seq<string>)
    ensures s == shortOpts + ShortPart(d) && l == longOpts + LongPart(d)
  {
    var suffix := SuffixFor(d.name, d.hasValue, d.optional);
    if |d.name| == 1 {
      s, l := shortOpts + d.name + suffix, longOpts;
    } else {
      s, l := shortOpts, longOpts + [d.name + suffix];
    }
  }
}
