/** What the tokenizer guarantees: where the positional arguments start, what
    clustering of short flags yields, that every recorded option was declared
    and carries a value of the shape its declaration asks for, and how the
    error codes arise. */
module GetoptProperties {
  import opened Php
  import opened Getopt

  // ---------------------------------------------------------------------
  // Positional arguments
  // ---------------------------------------------------------------------

  /** `t` is a state the loop of `doGetopt` reaches from `s`: `s` itself, or a
      state reached after an iteration on `s` that carried on. */
  ghost predicate Reaches(rev: Revision, args: seq<string>, short: string, longs: seq<string>,
                          skip: bool, s: Scan, t: Scan)
    decreases |args| - s.cursor
  {
    || s == t
    || (s.cursor < |args| && WalkStep(rev, args, short, longs, skip, s).Continue?
        && Reaches(rev, args, short, longs, skip, WalkStep(rev, args, short, longs, skip, s).s, t))
  }

  /** A token the loop reads as an option: a dash and more, other than `--`. */
  predicate OptionToken(arg: string) {
    arg != "--" && !StartsPositionals(arg)
  }

  /** The loop stopped in state `t` with result `p`: the options are exactly those
      recorded by then, and the positionals are empty when the input ran out, the
      tokens after a `--`, or the tokens from one that starts the positionals. */
  ghost predicate StopsAt(args: seq<string>, t: Scan, p: Parsed) {
    && t.cursor <= |args|
    && p.opts == t.opts
    && (|| (t.cursor == |args| && p.nonOpts == [])
        || (t.cursor < |args| && args[t.cursor] == "--" && p.nonOpts == args[t.cursor + 1..])
        || (t.cursor < |args| && args[t.cursor] != "--" && StartsPositionals(args[t.cursor])
            && p.nonOpts == args[t.cursor..]))
  }

  lemma {:induction false} ReachesForward(rev: Revision, args: seq<string>, short: string, longs: seq<string>,
                                          skip: bool, s: Scan, t: Scan)
    requires Reaches(rev, args, short, longs, skip, s, t)
    ensures s.cursor <= t.cursor
    decreases |args| - s.cursor
  {
    if s != t {
      ReachesForward(rev, args, short, longs, skip, WalkStep(rev, args, short, longs, skip, s).s, t);
    }
  }

  lemma ReachedForward(rev: Revision, args: seq<string>, short: string, longs: seq<string>, skip: bool, s: Scan)
    ensures forall u :: Reaches(rev, args, short, longs, skip, s, u) ==> s.cursor <= u.cursor
  {
    forall u | Reaches(rev, args, short, longs, skip, s, u) {
      ReachesForward(rev, args, short, longs, skip, s, u);
    }
  }

  /** An iteration that carries on was on an option token; one that stops without
      an error was on `--` or on a token that starts the positionals. */
  lemma WalkStepKinds(rev: Revision, args: seq<string>, short: string, longs: seq<string>, skip: bool, s: Scan)
    requires s.cursor < |args|
    ensures var w := WalkStep(rev, args, short, longs, skip, s);
      && (w.Continue? ==> OptionToken(args[s.cursor]))
      && (w.Stop? && w.r.Ok? ==> StopsAt(args, s, w.r.value))
  {
  }

  /** The loop returns at the first token it reads that is `--` or starts the
      positionals, or when the input runs out: every token it read before as
      the start of an iteration was an option, and no option is recorded after
      the stop. */
  lemma {:induction false} WalkPositionalTail(rev: Revision, args: seq<string>, short: string,
                                              longs: seq<string>, skip: bool, s: Scan)
    requires s.cursor <= |args|
    ensures var r := Walk(rev, args, short, longs, skip, s);
      r.Ok? ==> exists t :: (
        && Reaches(rev, args, short, longs, skip, s, t) && StopsAt(args, t, r.value)
        && forall u :: Reaches(rev, args, short, longs, skip, s, u) && u.cursor < t.cursor ==> OptionToken(args[u.cursor]))
    decreases |args| - s.cursor
  {
    var r := Walk(rev, args, short, longs, skip, s);
    if r.Ok? {
      if s.cursor == |args| {
        ReachedForward(rev, args, short, longs, skip, s);
        assert StopsAt(args, s, r.value);
      } else {
        WalkStepKinds(rev, args, short, longs, skip, s);
        match WalkStep(rev, args, short, longs, skip, s)
        case Stop(r1) =>
          ReachedForward(rev, args, short, longs, skip, s);
          assert StopsAt(args, s, r.value);
        case Continue(s1) =>
          WalkPositionalTail(rev, args, short, longs, skip, s1);
          var t :| Reaches(rev, args, short, longs, skip, s1, t) && StopsAt(args, t, r.value)
            && forall u :: Reaches(rev, args, short, longs, skip, s1, u) && u.cursor < t.cursor ==> OptionToken(args[u.cursor]);
          ReachesForward(rev, args, short, longs, skip, s1, t);
          forall u | Reaches(rev, args, short, longs, skip, s, u) && u.cursor < t.cursor
            ensures OptionToken(args[u.cursor])
          {
            if u != s {
              assert Reaches(rev, args, short, longs, skip, s1, u);
            }
          }
          assert Reaches(rev, args, short, longs, skip, s, t);
      }
    }
  }

  /** `doGetopt`'s positional arguments start after the first `--`, or at the
      first token that starts them, among the tokens the loop reads as the start
      of an iteration (a value taken by an option is not one); no option is
      recorded after that point. */
  lemma TokenizePositionalTail(rev: Revision, version: int, args: seq<string>, short: string,
                               longs: seq<string>, skip: bool)
    ensures var r := Tokenize(rev, version, args, short, longs, skip);
      var a := ScriptArgs(version, args);
      var sorted := if longs != [] then Sort(longs) else longs;
      r.Ok? ==> exists t :: (
        && Reaches(rev, a, short, sorted, skip, Scan([], 0), t) && StopsAt(a, t, r.value)
        && forall u :: Reaches(rev, a, short, sorted, skip, Scan([], 0), u) && u.cursor < t.cursor ==> OptionToken(a[u.cursor]))
  {
    var sorted := if longs != [] then Sort(longs) else longs;
    WalkPositionalTail(rev, ScriptArgs(version, args), short, sorted, skip, Scan([], 0));
  }

  /** Version 1 is version 2 on the arguments after the script name. */
  lemma Version1DropsScriptName(rev: Revision, args: seq<string>, short: string,
                                longs: seq<string>, skip: bool)
    requires args != [] && args[0] != "" && args[0][0] != '-'
    ensures Tokenize(rev, 1, args, short, longs, skip) == Tokenize(rev, 2, args[1..], short, longs, skip)
  {
  }

  // ---------------------------------------------------------------------
  // Short options
  // ---------------------------------------------------------------------

  /** The options a cluster of flags records: each letter with a null value. */
  function Flags(cluster: string): (r: seq<Occurrence>)
    ensures |r| == |cluster|
  {
    seq(|cluster|, k requires 0 <= k < |cluster| => Occurrence([cluster[k]], Null))
  }

  /** A cluster whose letters are all declared without `:` records every letter,
      in order, with a null value, and moves the pointer no further. */
  lemma {:induction false} ClusterOfFlags(rev: Revision, arg: string, i: nat, short: string, skip: bool,
                                          args: seq<string>, s: Scan)
    requires i <= |arg| && s.cursor <= |args|
    requires forall k :: i <= k < |arg| ==> ShortArity(short, arg[k]) == Some(NoValue)
    ensures ParseShort(rev, arg, i, short, skip, args, s) == Ok(Scan(s.opts + Flags(arg[i..]), s.cursor))
    decreases |arg| - i
  {
    if i == |arg| {
      assert s.opts + Flags(arg[i..]) == s.opts;
    } else {
      var s1 := Scan(s.opts + [Occurrence([arg[i]], Null)], s.cursor);
      assert ShortLetter(rev, arg, i, short, skip, args, s) == NextLetter(s1);
      ClusterOfFlags(rev, arg, i + 1, short, skip, args, s1);
      assert Flags(arg[i..]) == [Occurrence([arg[i]], Null)] + Flags(arg[i + 1..]);
      assert s1.opts + Flags(arg[i + 1..]) == s.opts + Flags(arg[i..]);
    }
  }

  /** Flags at the head of a cluster are recorded with a null value, in order,
      and parsing carries on at the first letter that is not a flag. */
  lemma {:induction false} FlagsThen(rev: Revision, arg: string, i: nat, j: nat, short: string, skip: bool,
                                     args: seq<string>, s: Scan)
    requires i <= j <= |arg| && s.cursor <= |args|
    requires forall k :: i <= k < j ==> ShortArity(short, arg[k]) == Some(NoValue)
    ensures ParseShort(rev, arg, i, short, skip, args, s)
      == ParseShort(rev, arg, j, short, skip, args, Scan(s.opts + Flags(arg[i..j]), s.cursor))
    decreases j - i
  {
    if i == j {
      assert s.opts + Flags(arg[i..j]) == s.opts;
    } else {
      var s1 := Scan(s.opts + [Occurrence([arg[i]], Null)], s.cursor);
      assert ShortLetter(rev, arg, i, short, skip, args, s) == NextLetter(s1);
      FlagsThen(rev, arg, i + 1, j, short, skip, args, s1);
      assert Flags(arg[i..j]) == [Occurrence([arg[i]], Null)] + Flags(arg[i + 1..j]);
      assert s1.opts + Flags(arg[i + 1..j]) == s.opts + Flags(arg[i..j]);
    }
  }

  /** A letter declared with `:` or `::` that is not the last of its cluster
      takes the rest of the cluster as its value (`-ofile`), and the cluster ends. */
  lemma ShortInlineValue(rev: Revision, arg: string, i: nat, short: string, skip: bool,
                         args: seq<string>, s: Scan)
    requires i + 1 < |arg| && s.cursor <= |args|
    requires ShortArity(short, arg[i]).Some? && ShortArity(short, arg[i]).value != NoValue
    ensures ParseShort(rev, arg, i, short, skip, args, s)
      == Ok(Scan(s.opts + [Occurrence([arg[i]], Str(arg[i + 1..]))], s.cursor))
  {
  }

  /** A required-value letter that ends its cluster (`-o file`, or `-vo file`
      after the flags) takes the next token, and raises REQUIRES_ARGUMENT
      exactly when that token is missing or option-like. */
  lemma RequiredShortTakesNextToken(rev: Revision, arg: string, i: nat, short: string, skip: bool,
                                    args: seq<string>, s: Scan)
    requires i + 1 == |arg| && s.cursor <= |args| && ShortArity(short, arg[i]) == Some(RequiredValue)
    ensures var r := ParseShort(rev, arg, i, short, skip, args, s);
      && (r.Err? <==> s.cursor == |args| || OptionLike(args[s.cursor]))
      && (r.Err? ==> r.error == RequiresArgument([arg[i]]))
      && (r.Ok? ==> r.value == Scan(s.opts + [Occurrence([arg[i]], Str(args[s.cursor]))], s.cursor + 1))
  {
    var r := ParseShort(rev, arg, i, short, skip, args, s);
    if s.cursor < |args| && !OptionLike(args[s.cursor]) {
      var s1 := Scan(s.opts + [Occurrence([arg[i]], Str(args[s.cursor]))], s.cursor + 1);
      assert ShortLetter(rev, arg, i, short, skip, args, s) == NextLetter(s1);
      assert r == ParseShort(rev, arg, i + 1, short, skip, args, s1);
    }
  }

  /** An optional-value letter that ends its cluster takes the next token when
      there is one and it is not option-like; otherwise it is recorded with a
      null value. After an option-like token the pointer is back on that token
      when the revision steps back, and as written it stays past the end when
      that token was the last one. */
  lemma OptionalShortValue(rev: Revision, arg: string, i: nat, short: string, skip: bool,
                           args: seq<string>, s: Scan)
    requires i + 1 == |arg| && s.cursor <= |args| && ShortArity(short, arg[i]) == Some(OptionalValue)
    ensures var r := ParseShort(rev, arg, i, short, skip, args, s);
      var c := [arg[i]];
      && (s.cursor == |args| ==> r == Ok(Scan(s.opts + [Occurrence(c, Null)], s.cursor)))
      && (s.cursor < |args| && !OptionLike(args[s.cursor]) ==>
            r == Ok(Scan(s.opts + [Occurrence(c, Str(args[s.cursor]))], s.cursor + 1)))
      && (s.cursor < |args| && OptionLike(args[s.cursor]) ==>
            r.Ok? && r.value.opts == s.opts + [Occurrence(c, Null)]
            && (rev == Intended || s.cursor + 1 < |args| ==> r.value.cursor == s.cursor)
            && (rev == AsWritten && s.cursor + 1 == |args| ==> r.value.cursor == |args|))
  {
    var r := ParseShort(rev, arg, i, short, skip, args, s);
    match ShortLetter(rev, arg, i, short, skip, args, s)
    case Finish(_) =>
    case NextLetter(s1) =>
      assert r == ParseShort(rev, arg, i + 1, short, skip, args, s1);
  }

  /** An undeclared letter (or `:`) raises UNRECOGNIZED_OPTION, or with `skip`
      abandons the rest of its cluster and records nothing for it. */
  lemma UnknownShortLetter(rev: Revision, arg: string, i: nat, short: string, skip: bool,
                           args: seq<string>, s: Scan)
    requires i < |arg| && s.cursor <= |args| && ShortArity(short, arg[i]).None?
    ensures ParseShort(rev, arg, i, short, skip, args, s)
      == if skip then Ok(s) else Err(Unrecognized([arg[i]]))
  {
  }

  /** A letter is unrecognized exactly when it is `:` or missing from the spec. */
  lemma ShortArityNone(short: string, c: char)
    ensures ShortArity(short, c).None? <==> c == ':' || c !in short
  {
  }

  // ---------------------------------------------------------------------
  // Every recorded option was declared, with a value of the right shape
  // ---------------------------------------------------------------------

  ghost predicate ShortFits(a: Arity, v: Value) {
    match a
    case NoValue => v == Null
    case RequiredValue => v.Str?
    case OptionalValue => v == Null || v.Str?
  }

  ghost predicate LongFits(a: Arity, v: Value) {
    match a
    case NoValue => v == Null || (v.Str? && !Truthy(v))
    case RequiredValue => v.Str? && !OptionLike(v.s)
    case OptionalValue => v == Null || v.Str? || v == Bool(false)
  }

  /** `o` names a declared option (a spec letter, or `--` and the name of the first
      long declaration that matches) and its value fits that declaration. */
  ghost predicate Declared(o: Occurrence, short: string, longs: seq<string>) {
    if |o.name| == 1 then
      ShortArity(short, o.name[0]).Some? && ShortFits(ShortArity(short, o.name[0]).value, o.value)
    else
      && |o.name| >= 2 && o.name[..2] == "--"
      && var found := FindLong(longs, o.name[2..], 0);
      && found.Some?
      && LongFits(LongArity(longs[found.value]), o.value)
  }

  /** Every occurrence in `os` is declared, stated one occurrence at a time
      from the end, as the tokenizer appends them. */
  ghost predicate AllDeclared(os: seq<Occurrence>, short: string, longs: seq<string>)
    decreases |os|
  {
    os == [] || (AllDeclared(os[..|os| - 1], short, longs) && Declared(os[|os| - 1], short, longs))
  }

  lemma AppendDeclared(os: seq<Occurrence>, o: Occurrence, short: string, longs: seq<string>)
    requires AllDeclared(os, short, longs) && Declared(o, short, longs)
    ensures AllDeclared(os + [o], short, longs)
  {
    assert (os + [o])[..|os|] == os;
  }

  lemma {:induction false} AllDeclaredEach(os: seq<Occurrence>, short: string, longs: seq<string>)
    requires AllDeclared(os, short, longs)
    ensures forall k :: 0 <= k < |os| ==> Declared(os[k], short, longs)
    decreases |os|
  {
    if os != [] {
      var init := os[..|os| - 1];
      AllDeclaredEach(init, short, longs);
      forall k | 0 <= k < |os| ensures Declared(os[k], short, longs) {
        if k < |init| {
          assert os[k] == init[k];
        }
      }
    }
  }

  /** `after` is `before`, or `before` and one more declared occurrence. */
  ghost predicate AddsDeclared(before: seq<Occurrence>, after: seq<Occurrence>, short: string, longs: seq<string>) {
    after == before || (|after| == |before| + 1 && after[..|before|] == before && Declared(after[|before|], short, longs))
  }

  lemma AddsKeepsDeclared(before: seq<Occurrence>, after: seq<Occurrence>, short: string, longs: seq<string>)
    requires AllDeclared(before, short, longs) && AddsDeclared(before, after, short, longs)
    ensures AllDeclared(after, short, longs)
  {
  }

  /** One letter of a cluster records at most one occurrence, and a declared one. */
  lemma ShortLetterDeclared(rev: Revision, arg: string, i: nat, short: string, skip: bool,
                            longs: seq<string>, args: seq<string>, s: Scan)
    requires i < |arg| && s.cursor <= |args|
    ensures var step := ShortLetter(rev, arg, i, short, skip, args, s);
      && (step.NextLetter? ==> AddsDeclared(s.opts, step.s.opts, short, longs))
      && (step.Finish? && step.r.Ok? ==> AddsDeclared(s.opts, step.r.value.opts, short, longs))
  {
    var opt := [arg[i]];
    var step := ShortLetter(rev, arg, i, short, skip, args, s);
    match ShortArity(short, arg[i])
    case None =>
    case Some(a) =>
      var o := if step.NextLetter? then step.s.opts[|s.opts|]
               else if step.r.Ok? then step.r.value.opts[|s.opts|] else Occurrence(opt, Null);
      if step.NextLetter? || step.r.Ok? {
        assert o.name == opt && ShortFits(a, o.value);
        OneMoreDeclared(s.opts, o, short, longs);
      }
  }

  lemma OneMoreDeclared(os: seq<Occurrence>, o: Occurrence, short: string, longs: seq<string>)
    requires |o.name| == 1 && ShortArity(short, o.name[0]).Some? && ShortFits(ShortArity(short, o.name[0]).value, o.value)
    ensures AddsDeclared(os, os + [o], short, longs)
  {
    assert (os + [o])[..|os|] == os;
  }

  lemma {:induction false} ParseShortDeclared(rev: Revision, arg: string, i: nat, short: string, skip: bool,
                                              longs: seq<string>, args: seq<string>, s: Scan)
    requires i <= |arg| && s.cursor <= |args| && AllDeclared(s.opts, short, longs)
    ensures var r := ParseShort(rev, arg, i, short, skip, args, s);
      r.Ok? ==> AllDeclared(r.value.opts, short, longs)
    decreases |arg| - i
  {
    if i < |arg| {
      ShortLetterDeclared(rev, arg, i, short, skip, longs, args, s);
      match ShortLetter(rev, arg, i, short, skip, args, s)
      case Finish(r) =>
        if r.Ok? {
          AddsKeepsDeclared(s.opts, r.value.opts, short, longs);
        }
      case NextLetter(s1) =>
        AddsKeepsDeclared(s.opts, s1.opts, short, longs);
        ParseShortDeclared(rev, arg, i + 1, short, skip, longs, args, s1);
    }
  }

  lemma ParseLongDeclared(arg: string, longs: seq<string>, skip: bool, short: string,
                          args: seq<string>, s: Scan)
    requires s.cursor <= |args| && AllDeclared(s.opts, short, longs)
    ensures var r := ParseLong(arg, longs, skip, args, s);
      r.Ok? ==> AllDeclared(r.value.opts, short, longs)
  {
    var (opt, optArg) := SplitAtEq(arg);
    match FindLong(longs, opt, 0)
    case None =>
    case Some(i) =>
      MatchLongDeclared(opt, optArg, longs, i, short, args, s);
  }

  lemma MatchLongDeclared(opt: string, optArg: Option<string>, longs: seq<string>, i: nat, short: string,
                          args: seq<string>, s: Scan)
    requires FindLong(longs, opt, 0) == Some(i)
    requires s.cursor <= |args| && AllDeclared(s.opts, short, longs)
    ensures var step := MatchLong(opt, optArg, longs, i, args, s);
      !step.Failed? ==> AllDeclared(step.s.opts, short, longs)
  {
    var step := MatchLong(opt, optArg, longs, i, args, s);
    if !step.Failed? {
      var o := step.s.opts[|s.opts|];
      MatchLongRecords(opt, optArg, longs, i, args, s);
      assert step.s.opts == s.opts + [o];
      assert o.name[2..] == opt;
      AppendDeclared(s.opts, o, short, longs);
    }
  }

  /** A matched long declaration records `--` and the name, with a value that
      fits the declaration's arity. */
  lemma MatchLongRecords(opt: string, optArg: Option<string>, longs: seq<string>, i: nat,
                         args: seq<string>, s: Scan)
    requires i < |longs| && s.cursor <= |args|
    ensures var step := MatchLong(opt, optArg, longs, i, args, s);
      !step.Failed? ==> step.s.opts[|s.opts|].name == "--" + opt && LongFits(LongArity(longs[i]), step.s.opts[|s.opts|].value)
  {
  }

  /** What a loop step has recorded so far is declared. */
  ghost predicate StepDeclared(step: Step, short: string, longs: seq<string>) {
    match step
    case Continue(s1) => AllDeclared(s1.opts, short, longs)
    case Stop(r) => r.Ok? ==> AllDeclared(r.value.opts, short, longs)
  }

  /** One iteration of the loop keeps every recorded option declared. */
  lemma WalkStepDeclared(rev: Revision, args: seq<string>, short: string,
                         longs: seq<string>, skip: bool, s: Scan)
    requires s.cursor < |args| && AllDeclared(s.opts, short, longs)
    ensures StepDeclared(WalkStep(rev, args, short, longs, skip, s), short, longs)
  {
    var arg := args[s.cursor];
    if arg != "--" && arg != "" && arg[0] == '-' {
      if |arg| > 1 && arg[1] == '-' {
        WalkLongDeclared(rev, args, short, longs, skip, s);
      } else if arg != "-" {
        WalkShortDeclared(rev, args, short, longs, skip, s);
      }
    }
  }

  lemma WalkLongDeclared(rev: Revision, args: seq<string>, short: string,
                         longs: seq<string>, skip: bool, s: Scan)
    requires s.cursor < |args| && AllDeclared(s.opts, short, longs)
    requires var arg := args[s.cursor]; arg != "--" && |arg| > 1 && arg[0] == '-' && arg[1] == '-'
    ensures StepDeclared(WalkStep(rev, args, short, longs, skip, s), short, longs)
  {
    var arg := args[s.cursor];
    var next := Scan(s.opts, s.cursor + 1);
    var r := ParseLong(arg[2..], longs, skip, args, next);
    ParseLongDeclared(arg[2..], longs, skip, short, args, next);
    WalkStepLong(rev, args, short, longs, skip, s);
  }

  lemma WalkShortDeclared(rev: Revision, args: seq<string>, short: string,
                          longs: seq<string>, skip: bool, s: Scan)
    requires s.cursor < |args| && AllDeclared(s.opts, short, longs)
    requires var arg := args[s.cursor]; |arg| > 1 && arg[0] == '-' && arg[1] != '-'
    ensures StepDeclared(WalkStep(rev, args, short, longs, skip, s), short, longs)
  {
    var arg := args[s.cursor];
    var next := Scan(s.opts, s.cursor + 1);
    ParseShortDeclared(rev, arg[1..], 0, short, skip, longs, args, next);
    WalkStepShort(rev, args, short, longs, skip, s);
  }

  lemma {:induction false} WalkDeclared(rev: Revision, args: seq<string>, short: string,
                                        longs: seq<string>, skip: bool, s: Scan)
    requires s.cursor <= |args| && AllDeclared(s.opts, short, longs)
    ensures var r := Walk(rev, args, short, longs, skip, s);
      r.Ok? ==> AllDeclared(r.value.opts, short, longs)
    decreases |args| - s.cursor
  {
    if s.cursor < |args| {
      WalkStepDeclared(rev, args, short, longs, skip, s);
      match WalkStep(rev, args, short, longs, skip, s)
      case Stop(_) =>
      case Continue(s1) => WalkDeclared(rev, args, short, longs, skip, s1);
    }
  }

  /** Every option the tokenizer returns is declared (among the sorted long
      declarations), and its value has the shape the declaration asks for. */
  lemma TokenizeDeclared(rev: Revision, version: int, args: seq<string>, short: string,
                         longs: seq<string>, skip: bool)
    ensures var r := Tokenize(rev, version, args, short, longs, skip);
      r.Ok? ==> forall k :: 0 <= k < |r.value.opts| ==>
        Declared(r.value.opts[k], short, if longs != [] then Sort(longs) else longs)
  {
    if args != [] {
      var sorted := if longs != [] then Sort(longs) else longs;
      WalkDeclared(rev, ScriptArgs(version, args), short, sorted, skip, Scan([], 0));
      var r := Tokenize(rev, version, args, short, longs, skip);
      if r.Ok? {
        AllDeclaredEach(r.value.opts, short, sorted);
      }
    }
  }

  // ---------------------------------------------------------------------
  // Long options
  // ---------------------------------------------------------------------

  /** A name that matches no declaration raises UNRECOGNIZED_OPTION, unless
      `skip` is set, in which case nothing changes. */
  lemma UnknownLongOption(arg: string, longs: seq<string>, skip: bool, args: seq<string>, s: Scan)
    requires s.cursor <= |args|
    requires forall l :: l in longs ==> LongName(l) != SplitAtEq(arg).0
    ensures ParseLong(arg, longs, skip, args, s)
      == if skip then Ok(s) else Err(Unrecognized(SplitAtEq(arg).0))
  {
  }

  /** A declaration without `=` matches only its own spelling and is never
      reported as ambiguous. */
  lemma PlainLongNeverAmbiguous(opt: string, longs: seq<string>, i: nat)
    requires i < |longs| && '=' !in longs[i] && LongName(longs[i]) == opt
    ensures longs[i] == opt
    ensures !IsAmbiguous(opt, longs, i)
  {
    ReplaceAbsentChar(longs[i], '=', "");
  }

  /** An optional-value (`name==`) declaration leaves the matching loop with
      `break`: without `skip` the option is then reported as unrecognized, and
      with `skip` its occurrence is kept. */
  lemma OptionalLongNeedsSkip(arg: string, longs: seq<string>, skip: bool, args: seq<string>, s: Scan)
    requires s.cursor <= |args|
    requires var found := FindLong(longs, SplitAtEq(arg).0, 0);
      found.Some? && LongArity(longs[found.value]) == OptionalValue
      && !IsAmbiguous(SplitAtEq(arg).0, longs, found.value)
    ensures var r := ParseLong(arg, longs, skip, args, s);
      && (!skip ==> r == Err(Unrecognized(SplitAtEq(arg).0)))
      && (skip ==>
            r.Ok? && |r.value.opts| == |s.opts| + 1 && r.value.opts[|s.opts|].name == "--" + SplitAtEq(arg).0)
  {
    var (opt, optArg) := SplitAtEq(arg);
    var i := FindLong(longs, opt, 0).value;
    var step := MatchLong(opt, optArg, longs, i, args, s);
    assert step.Break?;
    MatchLongRecords(opt, optArg, longs, i, args, s);
    assert ParseLong(arg, longs, skip, args, s) == if skip then Ok(step.s) else Err(Unrecognized(opt));
  }

  /** A required-value (`name=`) declaration with no inline value at the end of
      the input raises the code-less exception. */
  lemma RequiredLongAtEnd(opt: string, longs: seq<string>, skip: bool, args: seq<string>, s: Scan)
    requires s.cursor == |args| && '=' !in opt
    requires var found := FindLong(longs, opt, 0);
      found.Some? && LongArity(longs[found.value]) == RequiredValue && !IsAmbiguous(opt, longs, found.value)
    ensures ParseLong(opt, longs, skip, args, s) == Err(MissingArgument(opt))
  {
    assert FirstIndex(opt, '=').None?;
  }

  /** A required-value (`name=`) declaration takes a non-empty inline value, or
      else the next token. The value it takes must not be option-like
      (REQUIRES_ARGUMENT), and with neither an inline value nor a next token the
      code-less exception is raised. */
  lemma RequiredLongValue(arg: string, longs: seq<string>, skip: bool, args: seq<string>, s: Scan)
    requires s.cursor <= |args|
    requires var found := FindLong(longs, SplitAtEq(arg).0, 0);
      found.Some? && LongArity(longs[found.value]) == RequiredValue
      && !IsAmbiguous(SplitAtEq(arg).0, longs, found.value)
    ensures var opt := SplitAtEq(arg).0;
      var optArg := SplitAtEq(arg).1;
      var inline := optArg.Some? && optArg.value != "";
      var r := ParseLong(arg, longs, skip, args, s);
      && (inline ==> r == if OptionLike(optArg.value) then Err(RequiresArgument(opt))
                          else Ok(Scan(s.opts + [Occurrence("--" + opt, Str(optArg.value))], s.cursor)))
      && (!inline && s.cursor == |args| ==> r == Err(MissingArgument(opt)))
      && (!inline && s.cursor < |args| ==>
            r == if OptionLike(args[s.cursor]) then Err(RequiresArgument(opt))
                 else Ok(Scan(s.opts + [Occurrence("--" + opt, Str(args[s.cursor]))], s.cursor + 1)))
  {
  }

  /** A long option is reported as ambiguous exactly when its first exact match
      takes a value and the next declaration in order continues its name with
      something other than `=`. */
  lemma AmbiguousIff(arg: string, longs: seq<string>, skip: bool, args: seq<string>, s: Scan)
    requires s.cursor <= |args|
    ensures var opt := SplitAtEq(arg).0;
      var found := FindLong(longs, opt, 0);
      var r := ParseLong(arg, longs, skip, args, s);
      && ((r.Err? && r.error.code == AMBIGUOUS_OPTION) <==> (found.Some? && IsAmbiguous(opt, longs, found.value)))
      && (found.Some? && IsAmbiguous(opt, longs, found.value) ==> r == Err(Ambiguous(opt)))
  {
  }

  /** A flag (no `=` in its declaration) given a truthy inline value raises
      ARGUMENT_NOT_ALLOWED; an empty or `"0"` inline value is recorded as given. */
  lemma FlagWithInlineValue(opt: string, v: string, longs: seq<string>, skip: bool, args: seq<string>, s: Scan)
    requires s.cursor <= |args| && '=' !in opt
    requires var found := FindLong(longs, opt, 0);
      found.Some? && LongArity(longs[found.value]) == NoValue && !IsAmbiguous(opt, longs, found.value)
    ensures var r := ParseLong(opt + "=" + v, longs, skip, args, s);
      && (Truthy(Str(v)) ==> r == Err(NotAllowed(v)))
      && (!Truthy(Str(v)) ==> r == Ok(Scan(s.opts + [Occurrence("--" + opt, Str(v))], s.cursor)))
  {
    var arg := opt + "=" + v;
    assert arg[|opt|] == '=';
    assert forall j :: 0 <= j < |opt| ==> arg[j] == opt[j];
    assert FirstIndex(arg, '=') == Some(|opt|);
    assert arg[..|opt|] == opt && arg[|opt| + 1..] == v;
  }

  lemma SortExample()
    ensures Sort(["ab", "a="]) == ["a=", "ab"]
  {
    assert ["a="][1..] == [];
    assert Sort(["a="]) == ["a="];
    assert !StrLe("ab", "a=") by {
      assert "a="[1..] == "=" && "ab"[1..] == "b";
    }
    assert Insert("ab", ["a="]) == ["a=", "ab"];
    assert ["ab", "a="][1..] == ["a="];
  }

  lemma LongNameExample()
    ensures LongName("a=") == "a"
  {
    assert "a="[1..] == "=";
    assert "a="[..1] == "a";
    assert Replace("=", "=", "") == "";
    assert Replace("a=", "=", "") == "a" + Replace("=", "=", "");
  }

  lemma AmbiguousMatch(skip: bool)
    ensures ParseLong("a", ["a=", "ab"], skip, ["--a"], Scan([], 1)) == Err(Ambiguous("a"))
  {
    var sorted := ["a=", "ab"];
    LongNameExample();
    assert SplitAtEq("a") == ("a", None);
    assert FindLong(sorted, "a", 0) == Some(0);
    assert IsAmbiguous("a", sorted, 0) by {
      assert Suffix("a=", 1) == "=";
      assert Prefix("ab", 1) == "a";
      assert Suffix("ab", 1) == "b";
    }
  }

  /** With `ab` and `a=` declared, `--a` is ambiguous: its exact match takes a
      value and the next declaration in sorted order continues the name. */
  lemma AmbiguousExample(skip: bool)
    ensures Tokenize(AsWritten, 2, ["--a"], "", ["ab", "a="], skip) == Err(Ambiguous("a"))
  {
    SortExample();
    AmbiguousMatch(skip);
    assert "--a"[2..] == "a";
    var w := WalkStep(AsWritten, ["--a"], "", ["a=", "ab"], skip, Scan([], 0));
    assert w == Stop(Err(Ambiguous("a")));
  }

  // ---------------------------------------------------------------------
  // The peeked token after an optional-value short option (README, Findings)
  // ---------------------------------------------------------------------

  /** As written: with `a::b` declared, `-a -b` loses `-b`. The pointer ran past the
      end when `-b` was peeked at, and `prev()` cannot bring it back. */
  lemma AsWrittenDropsFinalOption()
    ensures Tokenize(AsWritten, 2, ["-a", "-b"], "a::b", [], false)
      == Ok(Parsed([Occurrence("a", Null)], []))
  {
    var args := ["-a", "-b"];
    assert "-a"[1..] == "a" && ["a"[0]] == "a" && args[1] == "-b";
    assert ShortArity("a::b", 'a') == Some(OptionalValue) by {
      assert FirstIndex("a::b", 'a') == Some(0);
      assert "a::b"[1..] == "::b";
    }
    assert OptionLike("-b");
    assert Rewind(AsWritten, 1, 2) == 2;
    var s1 := Scan([Occurrence("a", Null)], 2);
    var x := ShortLetter(AsWritten, "a", 0, "a::b", false, args, Scan([], 1));
    assert x.Finish? && x.r.Ok? && x.r.value.cursor == 2;
    assert x.r.value.opts == [Occurrence("a", Null)];
    assert x == Finish(Ok(s1));
    assert WalkStep(AsWritten, args, "a::b", [], false, Scan([], 0)) == Continue(s1);
  }

  /** Corrected: stepping back onto the peeked token, `-b` is read as an option. */
  lemma IntendedKeepsFinalOption()
    ensures Tokenize(Intended, 2, ["-a", "-b"], "a::b", [], false)
      == Ok(Parsed([Occurrence("a", Null), Occurrence("b", Null)], []))
  {
    var args := ["-a", "-b"];
    var s1 := Scan([Occurrence("a", Null)], 1);
    var s2 := Scan([Occurrence("a", Null), Occurrence("b", Null)], 2);
    IntendedReadsA();
    IntendedReadsB();
    assert Walk(Intended, args, "a::b", [], false, s2) == Ok(Parsed(s2.opts, []));
  }

  lemma IntendedReadsA()
    ensures WalkStep(Intended, ["-a", "-b"], "a::b", [], false, Scan([], 0)) == Continue(Scan([Occurrence("a", Null)], 1))
  {
    var args := ["-a", "-b"];
    assert "-a"[1..] == "a" && ["a"[0]] == "a" && args[1] == "-b";
    assert ShortArity("a::b", 'a') == Some(OptionalValue) by {
      assert FirstIndex("a::b", 'a') == Some(0);
      assert "a::b"[1..] == "::b";
    }
    assert OptionLike("-b");
    var s1 := Scan([Occurrence("a", Null)], 1);
    var x := ShortLetter(Intended, "a", 0, "a::b", false, args, Scan([], 1));
    assert x.Finish? && x.r.Ok? && x.r.value.cursor == 1;
    assert x.r.value.opts == [Occurrence("a", Null)];
    assert x == Finish(Ok(s1));
  }

  lemma IntendedReadsB()
    ensures WalkStep(Intended, ["-a", "-b"], "a::b", [], false, Scan([Occurrence("a", Null)], 1))
      == Continue(Scan([Occurrence("a", Null), Occurrence("b", Null)], 2))
  {
    var args := ["-a", "-b"];
    var s2 := Scan([Occurrence("a", Null), Occurrence("b", Null)], 2);
    assert args[1] == "-b" && "-b"[1..] == "b";
    FlagB(args, Scan([Occurrence("a", Null)], 2));
    assert [Occurrence("a", Null)] + [Occurrence("b", Null)] == s2.opts;
    assert ParseShort(Intended, "b", 1, "a::b", false, args, s2) == Ok(s2);
    assert ParseShort(Intended, "b", 0, "a::b", false, args, Scan([Occurrence("a", Null)], 2)) == Ok(s2);
  }

  lemma FlagB(args: seq<string>, s: Scan)
    requires s.cursor <= |args|
    ensures ShortLetter(Intended, "b", 0, "a::b", false, args, s) == NextLetter(Scan(s.opts + [Occurrence("b", Null)], s.cursor))
  {
    assert ShortArity("a::b", 'b') == Some(NoValue) by {
      assert FirstIndex("a::b", 'b') == Some(3);
      assert "a::b"[4..] == "";
    }
    assert ["b"[0]] == "b";
  }

  /** In the corrected revision a short option passes over the token under the
      pointer only when it took that token as its value. */
  lemma {:induction false} IntendedConsumesOnlyValues(arg: string, i: nat, short: string, skip: bool,
                                                      args: seq<string>, s: Scan)
    requires i <= |arg| && s.cursor <= |args|
    ensures var r := ParseShort(Intended, arg, i, short, skip, args, s);
      r.Ok? ==>
        || r.value.cursor == s.cursor
        || (r.value.cursor == s.cursor + 1 && r.value.opts != []
            && r.value.opts[|r.value.opts| - 1].value == Str(args[s.cursor]))
    decreases |arg| - i
  {
    if i < |arg| {
      IntendedLetter(arg, i, short, skip, args, s);
      match ShortLetter(Intended, arg, i, short, skip, args, s)
      case Finish(_) =>
      case NextLetter(s1) =>
        if s1.cursor == s.cursor {
          IntendedConsumesOnlyValues(arg, i + 1, short, skip, args, s1);
        } else {
          assert ParseShort(Intended, arg, i + 1, short, skip, args, s1) == Ok(s1);
        }
    }
  }

  /** One letter in the corrected revision: it ends where it started, or it took
      the next token as the value of the cluster's last letter. */
  lemma IntendedLetter(arg: string, i: nat, short: string, skip: bool, args: seq<string>, s: Scan)
    requires i < |arg| && s.cursor <= |args|
    ensures match ShortLetter(Intended, arg, i, short, skip, args, s)
      case Finish(r) => r.Ok? ==> r.value.cursor == s.cursor
      case NextLetter(s1) =>
        || s1.cursor == s.cursor
        || (s1.cursor == s.cursor + 1 && i + 1 == |arg| && s1.opts != []
            && s1.opts[|s1.opts| - 1].value == Str(args[s.cursor]))
  {
  }
}
