/** `OptionBuilder` (src/DESTRealm/Optionally/OptionBuilder.php): builds the
    tokenizer's spec strings from the declared options, runs the tokenizer
    with unknown options skipped, and groups the occurrences by name with
    `assignValues`. The alias and boolean handling that follows the
    `continue` in `assignValues` is never reached, so it is not part of
    the grouping. */
module OptionBuilder {
  import opened Php
  import opened Getopt
  import opened Declare
  import Resolver

  /** What `assignValues` stores under a name: `['count' => n, 'value' => [...]]`. */
  datatype Group = Group(count: nat, values: seq<Value>)

  /** The key an occurrence is grouped under: its name with every `--` removed. */
  function Key(o: Occurrence): string {
    Resolver.StripDashes(o.name)
  }

  /** The values of the occurrences grouped under `name`, in input order. */
  function ValuesFor(occs: seq<Occurrence>, name: string): seq<Value>
    decreases |occs|
  {
    if occs == [] then []
    else ValuesFor(occs[..|occs| - 1], name) + (if Key(occs[|occs| - 1]) == name then [occs[|occs| - 1].value] else [])
  }

  /** One pass of the loop in `assignValues`. */
  function GroupStep(groups: OMap<Group>, o: Occurrence): OMap<Group> {
    var opt := Key(o);
    if opt in groups.m then groups.Put(opt, Group(groups.m[opt].count + 1, groups.m[opt].values + [o.value]))
    else groups.Put(opt, Group(1, [o.value]))
  }

  /** `assignValues($options, $settings)` */
  function Grouped(occs: seq<Occurrence>): OMap<Group>
    decreases |occs|
  {
    if occs == [] then EmptyMap() else GroupStep(Grouped(occs[..|occs| - 1]), occs[|occs| - 1])
  }

  /** A name has a group exactly when some occurrence is stored under it; its
      count is the number of those occurrences and its values are theirs, in
      input order, nulls included. */
  lemma {:induction false} GroupedSpec(occs: seq<Occurrence>)
    ensures Grouped(occs).Valid()
    ensures forall n :: n in Grouped(occs).m <==> ValuesFor(occs, n) != []
    ensures forall n :: n in Grouped(occs).m ==> Grouped(occs).m[n] == Group(|ValuesFor(occs, n)|, ValuesFor(occs, n))
    decreases |occs|
  {
    if occs != [] {
      var init := occs[..|occs| - 1];
      var o := occs[|occs| - 1];
      GroupedSpec(init);
      var r := Grouped(init);
      forall n
        ensures n in Grouped(occs).m <==> ValuesFor(occs, n) != []
        ensures n in Grouped(occs).m ==> Grouped(occs).m[n] == Group(|ValuesFor(occs, n)|, ValuesFor(occs, n))
      {
        if n == Key(o) {
          assert ValuesFor(occs, n) == ValuesFor(init, n) + [o.value];
        } else {
          assert ValuesFor(occs, n) == ValuesFor(init, n) + [];
        }
      }
    }
  }

  /** A name is grouped exactly when one of the occurrences is stored under it. */
  lemma {:induction false} ValuesForPresent(occs: seq<Occurrence>, n: string)
    ensures ValuesFor(occs, n) != [] <==> exists k :: 0 <= k < |occs| && Key(occs[k]) == n
    decreases |occs|
  {
    if occs != [] {
      var init := occs[..|occs| - 1];
      ValuesForPresent(init, n);
      if Key(occs[|occs| - 1]) != n {
        assert ValuesFor(occs, n) == ValuesFor(init, n) + [];
        if exists k :: 0 <= k < |occs| && Key(occs[k]) == n {
          var k :| 0 <= k < |occs| && Key(occs[k]) == n;
          assert init[k] == occs[k];
        }
      } else {
        assert Key(occs[|occs| - 1]) == n;
      }
    }
  }

  /** Two occurrences under different keys make two groups of one, in input order. */
  lemma GroupedPair(o1: Occurrence, o2: Occurrence)
    requires Key(o1) != Key(o2)
    ensures Grouped([o1, o2]) == OMap([Key(o1), Key(o2)], map[Key(o1) := Group(1, [o1.value]), Key(o2) := Group(1, [o2.value])])
  {
    var g1 := GroupStep(EmptyMap(), o1);
    assert Grouped([o1]) == g1 by {
      assert [o1][..0] == [];
    }
    assert [o1, o2][..1] == [o1];
  }

  /** Nothing maps an alias to its master: `-v` and `--verbose` are two groups. */
  lemma ShortAndLongStaySeparate(v: Value, w: Value)
    ensures var r := Grouped([Occurrence("v", v), Occurrence("--verbose", w)]);
      && r.keys == ["v", "verbose"] && "v" in r.m && "verbose" in r.m
      && r.m["v"] == Group(1, [v]) && r.m["verbose"] == Group(1, [w])
  {
    var o1, o2 := Occurrence("v", v), Occurrence("--verbose", w);
    assert Key(o1) == "v";
    assert Resolver.NoDoubleDash("verbose") by {
      forall i | 0 <= i < |"verbose"| - 1 ensures "verbose"[i] != '-' {
      }
    }
    Resolver.LongOccurrenceName("verbose");
    assert Key(o2) == "verbose";
    GroupedPair(o1, o2);
  }

  /** The loop of `assignValues`. */
  method AssignValues(occs: seq<Occurrence>) returns (groups: OMap<Group>)
    ensures groups == Grouped(occs)
  {
    groups := EmptyMap();
    for i := 0 to |occs|
      invariant groups == Grouped(occs[..i])
    {
      assert occs[..i + 1][..i] == occs[..i];
      var opt := Resolver.StripDashes(occs[i].name);
      if opt !in groups.m {
        groups := groups.Put(opt, Group(1, [occs[i].value]));
      } else {
        var g := groups.m[opt];
        groups := groups.Put(opt, Group(g.count + 1, g.values + [occs[i].value]));
      }
    }
    assert occs[..|occs|] == occs;
  }

  /** `build()` up to its `print_r`: the spec strings for every option and
      alias, the tokenizer with `skip_unknown` set, and the grouping. */
  method Build(rev: Revision, args: seq<string>, options: OMap<Record>)
    returns (r: Result<(OMap<Group>, seq<string>), GetoptError>)
    ensures match Tokenize(rev, 2, args, ShortSpec(DeclsOf(options.keys, options.m)), LongSpec(DeclsOf(options.keys, options.m)), true)
      case Ok(p) => r == Ok((Grouped(p.opts), p.nonOpts))
      case Err(e) => r == Err(e)
  {
    var shortOpts, longOpts, _ := BuildSpec(options);
    var parsed := Getopt2(rev, args, shortOpts, longOpts, true);
    match parsed {
      case Err(e) =>
        r := Err(e);
      case Ok(p) =>
        var groups := AssignValues(p.opts);
        r := Ok((groups, p.nonOpts));
    }
  }
}
