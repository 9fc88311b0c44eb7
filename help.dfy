/** The help generator (`DESTRealm\Optionally\Help`): a usage line, then one
    block per described option in ascending string order of the option names,
    each block laying the option's renderings over the leading indentation of
    its wrapped and indented description. */
module Help {
  import opened Php
  import opened Strings
  import opened Getopt

  /** An entry of `$this->help`: the description, the argument's name and
      whether the argument is optional. The `option` and `aliases` slots are
      stored but never read. */
  datatype Entry = Entry(description: string, arg: string, argIsOptional: bool)

  // ---------------------------------------------------------------------
  // Rendering an option
  // ---------------------------------------------------------------------

  /** `-x` for a one-character name, `--name` for any other. */
  function Head(option: string): (r: string)
    ensures |r| == |option| + (if |option| == 1 then 1 else 2)
  {
    if |option| == 1 then "-" + option else "--" + option
  }

  /** `toOption($option, $arg, $optional)`: the name as typed on the command
      line and, for a non-empty argument name, ` <arg>` or ` [arg]` after a
      short option and `[=]<arg>` or `[=][arg]` after a long one. */
  function ToOption(option: string, arg: string, optional: bool): (r: string)
    ensures |r| == |Head(option)| + (if arg == "" then 0 else |arg| + (if |option| == 1 then 3 else 5))
    ensures |r| >= 2
    ensures arg == "" <==> r == Head(option)
  {
    var head := Head(option);
    if arg == "" then head
    else
      var sep := if |option| == 1 then " " else "[=]";
      var (open, close) := if optional then ("[", "]") else ("<", ">");
      head + sep + open + arg + close
  }

  /** The rendering starts with the dashes and the name; a non-empty argument
      name follows, closed by `]` when it is optional and by `>` otherwise. */
  lemma ToOptionShape(option: string, arg: string, optional: bool)
    ensures var r := ToOption(option, arg, optional); var h := Head(option);
      && r[..|h|] == h && h[|h| - |option|..] == option
      && (arg != "" ==> r[|r| - 1] == (if optional then ']' else '>') && r[|r| - |arg| - 1..|r| - 1] == arg)
  {
    var r := ToOption(option, arg, optional);
    var h := Head(option);
    assert h[|h| - |option|..] == option;
    if arg != "" {
      var sep := if |option| == 1 then " " else "[=]";
      var pre := h + sep + (if optional then "[" else "<");
      assert r == pre + arg + (if optional then "]" else ">");
      assert r[..|h|] == pre[..|h|] == h;
      assert r[|pre|..|pre| + |arg|] == arg;
    }
  }

  /** `toOption($option, null, null)`: `null === ''` is false, so a null
      argument still brings its (empty) angle brackets. */
  function NullArgOption(option: string): (r: string)
    ensures |r| == |ToOption(option, "x", false)| - 1 && r[..|Head(option)|] == Head(option)
    ensures r[|r| - 2..] == "<>"
  {
    Head(option) + (if |option| == 1 then " <>" else "[=]<>")
  }

  /** The renderings of short options the tests show. */
  lemma ShortOptionExamples()
    ensures ToOption("c", "file", false) == "-c <file>"
    ensures ToOption("c", "file", true) == "-c [file]"
  {
  }

  /** The renderings of long options the tests show. */
  lemma LongOptionExamples()
    ensures ToOption("config", "file", true) == "--config[=][file]"
    ensures ToOption("save", "file", false) == "--save[=]<file>"
    ensures ToOption("debug", "", false) == "--debug"
  {
  }

  /** `$this->help[$key]`, if there is one. */
  function EntryAt(help: OMap<Entry>, key: string): Option<Entry> {
    if key in help.m then Some(help.m[key]) else None
  }

  /** `toOption($name, $this->help[$key]['arg'], $this->help[$key]['argIsOptional'])`. */
  function Render(name: string, entry: Option<Entry>): (r: string)
    ensures |r| >= 2
  {
    match entry
    case Some(e) => ToOption(name, e.arg, e.argIsOptional)
    case None => NullArgOption(name)
  }

  // ---------------------------------------------------------------------
  // hasOptionalValue, hasRequiredValue
  // ---------------------------------------------------------------------

  /** `hasOptionalValue($option)` */
  predicate HasOptionalValue(options: map<string, Record>, option: string) {
    option in options && !Truthy(Field(options[option], "boolean"))
    && Truthy(Field(options[option], "value")) && Truthy(Field(options[option], "optionalValue"))
  }

  /** `hasRequiredValue($option)` */
  predicate HasRequiredValue(options: map<string, Record>, option: string) {
    option in options && !Truthy(Field(options[option], "boolean"))
    && Truthy(Field(options[option], "value")) && !Truthy(Field(options[option], "optionalValue"))
  }

  /** An option takes an optional value, a required one, or neither; an
      undeclared or boolean option takes neither, and a declared, non-boolean
      option that takes a value takes exactly one of the two. */
  lemma ValueKinds(options: map<string, Record>, option: string)
    ensures !(HasOptionalValue(options, option) && HasRequiredValue(options, option))
    ensures option !in options || Truthy(Field(options[option], "boolean")) ==>
      !HasOptionalValue(options, option) && !HasRequiredValue(options, option)
    ensures HasOptionalValue(options, option) || HasRequiredValue(options, option) <==>
      option in options && !Truthy(Field(options[option], "boolean")) && Truthy(Field(options[option], "value"))
  {
  }

  // ---------------------------------------------------------------------
  // parseUsage
  // ---------------------------------------------------------------------

  /** `parseUsage()`: every `%script` becomes the script name, and one line feed follows. */
  function ParseUsage(usage: string, scriptName: string): (r: string)
    ensures |r| >= 1 && r[|r| - 1] == '\n'
  {
    Replace(usage, "%script", scriptName) + "\n"
  }

  /** Text before the first `%` is kept; a `%script` there becomes the script
      name; the scan goes on after it. */
  lemma ParseUsageSplice(a: string, b: string, scriptName: string)
    requires '%' !in a
    ensures ParseUsage(a + "%script" + b, scriptName) == a + scriptName + Replace(b, "%script", scriptName) + "\n"
  {
    ReplaceSkip(a, "%script" + b, "%script", scriptName);
    assert a + "%script" + b == a + ("%script" + b);
    var t := "%script" + b;
    assert t[..7] == "%script" && t[7..] == b;
  }

  /** Usage text without a `%` is printed as it is, on its own line. */
  lemma ParseUsagePlain(usage: string, scriptName: string)
    requires '%' !in usage
    ensures ParseUsage(usage, scriptName) == usage + "\n"
  {
    ReplaceSkip(usage, "", "%script", scriptName);
    assert usage + "" == usage;
  }

  /** Usage text with two placeholders, such as `%script usage: %script
      [options]`, names the script twice. */
  lemma ParseUsageTwice(a: string, b: string, c: string, s: string)
    requires '%' !in a && '%' !in b && '%' !in c
    ensures ParseUsage(a + "%script" + b + "%script" + c, s) == a + s + b + s + c + "\n"
  {
    var p := "%script";
    assert Replace(c, p, s) == c by {
      ReplaceSkip(c, "", p, s);
      assert c + "" == c;
    }
    assert Replace(p + c, p, s) == s + c by {
      assert (p + c)[..|p|] == p && (p + c)[|p|..] == c;
    }
    assert Replace(b + (p + c), p, s) == b + (s + c) by {
      ReplaceSkip(b, p + c, p, s);
    }
    assert ParseUsage(a + p + (b + (p + c)), s) == a + s + (b + (s + c)) + "\n" by {
      ParseUsageSplice(a, b + (p + c), s);
    }
    assert a + p + b + p + c == a + p + (b + (p + c));
    assert a + s + (b + (s + c)) + "\n" == a + s + b + s + c + "\n";
  }

  // ---------------------------------------------------------------------
  // calculateMaxLength
  // ---------------------------------------------------------------------

  /** The running `max` of `calculateMaxLength` over `cands`, from `acc`:
      renderings wider than `cutoff` are passed over. */
  function WidestFrom(acc: nat, cands: seq<string>, cutoff: nat): nat
    decreases |cands|
  {
    if cands == [] then acc
    else WidestFrom(if |cands[0]| <= cutoff && |cands[0]| > acc then |cands[0]| else acc, cands[1..], cutoff)
  }

  /** The running maximum never passes the cutoff it started under. */
  lemma {:induction false} WidestFromBound(acc: nat, cands: seq<string>, cutoff: nat)
    requires acc <= cutoff
    ensures WidestFrom(acc, cands, cutoff) <= cutoff
    decreases |cands|
  {
    if cands != [] {
      WidestFromBound(if |cands[0]| <= cutoff && |cands[0]| > acc then |cands[0]| else acc, cands[1..], cutoff);
    }
  }

  /** The running maximum is at least its start and every rendering that fits
      the cutoff, and it is its start or the width of one such rendering. */
  lemma {:induction false} WidestFromSpec(acc: nat, cands: seq<string>, cutoff: nat)
    ensures var w := WidestFrom(acc, cands, cutoff);
      w >= acc && forall i :: 0 <= i < |cands| && |cands[i]| <= cutoff ==> |cands[i]| <= w
    ensures var w := WidestFrom(acc, cands, cutoff);
      w == acc || exists i :: 0 <= i < |cands| && |cands[i]| == w && w <= cutoff
    decreases |cands|
  {
    if cands != [] {
      var next := if |cands[0]| <= cutoff && |cands[0]| > acc then |cands[0]| else acc;
      WidestFromSpec(next, cands[1..], cutoff);
      var w := WidestFrom(acc, cands, cutoff);
      if w != acc && w != next {
        var i :| 0 <= i < |cands[1..]| && |cands[1..][i]| == w && w <= cutoff;
        assert cands[i + 1] == cands[1..][i];
      }
      forall i | 0 <= i < |cands| && |cands[i]| <= cutoff ensures |cands[i]| <= w {
        if i > 0 {
          assert cands[i] == cands[1..][i - 1];
        }
      }
    }
  }

  lemma {:induction false} WidestFromAppend(acc: nat, a: seq<string>, b: seq<string>, cutoff: nat)
    ensures WidestFrom(acc, a + b, cutoff) == WidestFrom(WidestFrom(acc, a, cutoff), b, cutoff)
    decreases |a|
  {
    if a != [] {
      assert (a + b)[0] == a[0] && (a + b)[1..] == a[1..] + b;
      var next := if |a[0]| <= cutoff && |a[0]| > acc then |a[0]| else acc;
      WidestFromAppend(next, a[1..], b, cutoff);
    } else {
      assert a + b == b;
    }
  }

  /** Where the alias loop of `calculateMaxLength` looks: as written,
      `$option` already holds the key's rendering when `$this->options[$option]`
      and `$this->help[$option]` are read; the intended reading is the key. */
  function AliasOwner(rev: Revision, key: string, rendered: string): string {
    if rev == AsWritten then rendered else key
  }

  /** The renderings `calculateMaxLength` weighs for one key: the key's own,
      then the aliases of the record under `AliasOwner`, each rendered with
      the help entry stored there. */
  function KeyCandidates(rev: Revision, key: string, help: OMap<Entry>, options: map<string, Record>): (r: seq<string>)
    ensures |r| >= 1 && r[0] == Render(key, EntryAt(help, key))
  {
    var rendered := Render(key, EntryAt(help, key));
    var owner := AliasOwner(rev, key, rendered);
    var aliases := Aliases(RecordAt(options, owner));
    [rendered] + seq(|aliases|, i requires 0 <= i < |aliases| => Render(aliases[i], EntryAt(help, owner)))
  }

  function Candidates(rev: Revision, keys: seq<string>, help: OMap<Entry>, options: map<string, Record>): seq<string>
    decreases |keys|
  {
    if keys == [] then [] else KeyCandidates(rev, keys[0], help, options) + Candidates(rev, keys[1..], help, options)
  }

  /** As written, the aliases of an option count towards the width only when
      some option is stored under the option's rendered form, which a plain
      name never is. */
  lemma AliasesOnlyUnderRendering(key: string, help: OMap<Entry>, options: map<string, Record>)
    requires Render(key, EntryAt(help, key)) !in options
    ensures KeyCandidates(AsWritten, key, help, options) == [Render(key, EntryAt(help, key))]
  {
  }

  /** Boolean option `m` with alias `verbose`: as written the width is that of
      `-m` alone; as intended it is that of `--verbose`. */
  lemma AsWrittenWidthIgnoresAliases()
    ensures var help := OMap(["m"], map["m" := Entry("", "", false)]);
      var options := map["m" := map["aliases" := Arr([Str("verbose")])]];
      && MaxLength(AsWritten, ["m"], help, options, 20, 2) == |"-m"|
      && MaxLength(Intended, ["m"], help, options, 20, 2) == |"--verbose"|
  {
    var help := OMap(["m"], map["m" := Entry("", "", false)]);
    var options := map["m" := map["aliases" := Arr([Str("verbose")])]];
    assert Render("m", EntryAt(help, "m")) == "-m";
    assert Aliases(RecordAt(options, "m")) == ["verbose"];
    assert KeyCandidates(AsWritten, "m", help, options) == ["-m"];
    assert Candidates(AsWritten, ["m"], help, options) == ["-m"];
    assert Render("verbose", EntryAt(help, "m")) == "--verbose";
    var named := seq(1, i requires 0 <= i < 1 => Render(["verbose"][i], EntryAt(help, "m")));
    assert named == ["--verbose"];
    assert KeyCandidates(Intended, "m", help, options) == ["-m"] + named;
    assert Candidates(Intended, ["m"], help, options) == ["-m", "--verbose"];
  }

  /** The candidates of a list of keys split with the list. */
  lemma {:induction false} CandidatesAppend(rev: Revision, a: seq<string>, b: seq<string>, help: OMap<Entry>, options: map<string, Record>)
    ensures Candidates(rev, a + b, help, options) == Candidates(rev, a, help, options) + Candidates(rev, b, help, options)
    decreases |a|
  {
    if a == [] {
      assert a + b == b;
    } else {
      assert (a + b)[0] == a[0] && (a + b)[1..] == a[1..] + b;
      CandidatesAppend(rev, a[1..], b, help, options);
    }
  }

  /** The candidates of key `k` sit in the candidates of the list right after
      those of the keys before it. */
  lemma KeyCandidatesIn(rev: Revision, keys: seq<string>, help: OMap<Entry>, options: map<string, Record>, k: nat)
    requires k < |keys|
    ensures Candidates(rev, keys, help, options)
      == Candidates(rev, keys[..k], help, options) + KeyCandidates(rev, keys[k], help, options) + Candidates(rev, keys[k + 1..], help, options)
  {
    assert keys == keys[..k] + ([keys[k]] + keys[k + 1..]);
    CandidatesAppend(rev, keys[..k], [keys[k]] + keys[k + 1..], help, options);
    CandidatesAppend(rev, [keys[k]], keys[k + 1..], help, options);
    assert Candidates(rev, [keys[k]], help, options) == KeyCandidates(rev, keys[k], help, options) by {
      assert [keys[k]][1..] == [];
    }
  }

  /** As intended, every alias that fits the cutoff counts: the width is at
      least that of the alias rendered with its option's argument. */
  lemma IntendedWidthCoversAliases(keys: seq<string>, help: OMap<Entry>, options: map<string, Record>,
                                   cutoff: nat, indentation: nat, k: nat, a: nat)
    requires k < |keys| && a < |Aliases(RecordAt(options, keys[k]))|
    requires |Render(Aliases(RecordAt(options, keys[k]))[a], EntryAt(help, keys[k]))| <= cutoff
    ensures |Render(Aliases(RecordAt(options, keys[k]))[a], EntryAt(help, keys[k]))|
      <= MaxLength(Intended, keys, help, options, cutoff, indentation)
  {
    IntendedAliasCandidate(keys[k], help, options, a);
    KeyCandidatesIn(Intended, keys, help, options, k);
    var before := Candidates(Intended, keys[..k], help, options);
    var own := KeyCandidates(Intended, keys[k], help, options);
    var after := Candidates(Intended, keys[k + 1..], help, options);
    assert (before + own + after)[|before| + a + 1] == own[a + 1];
    MaxLengthCovers(Intended, keys, help, options, cutoff, indentation, |before| + a + 1);
  }

  /** Each candidate within the cutoff is at most the width. */
  lemma MaxLengthCovers(rev: Revision, keys: seq<string>, help: OMap<Entry>, options: map<string, Record>,
                        cutoff: nat, indentation: nat, i: nat)
    requires i < |Candidates(rev, keys, help, options)| && |Candidates(rev, keys, help, options)[i]| <= cutoff
    ensures |Candidates(rev, keys, help, options)[i]| <= MaxLength(rev, keys, help, options, cutoff, indentation)
  {
    MaxLengthSpec(rev, keys, help, options, cutoff, indentation);
  }

  /** As intended, alias `a` of a key is its candidate `a + 1`. */
  lemma IntendedAliasCandidate(key: string, help: OMap<Entry>, options: map<string, Record>, a: nat)
    requires a < |Aliases(RecordAt(options, key))|
    ensures a + 1 < |KeyCandidates(Intended, key, help, options)|
    ensures KeyCandidates(Intended, key, help, options)[a + 1] == Render(Aliases(RecordAt(options, key))[a], EntryAt(help, key))
  {
  }

  /** `calculateMaxLength($keys)`: the widest rendering that fits the cutoff;
      `indentation` when none does. */
  function MaxLength(rev: Revision, keys: seq<string>, help: OMap<Entry>, options: map<string, Record>, cutoff: nat, indentation: nat): nat {
    var w := WidestFrom(0, Candidates(rev, keys, help, options), cutoff);
    if w == 0 then indentation else w
  }

  /** No rendering that fits the cutoff is wider than the result, and the
      result is the width of one of them, or `indentation` when every
      rendering is wider than the cutoff. */
  lemma MaxLengthSpec(rev: Revision, keys: seq<string>, help: OMap<Entry>, options: map<string, Record>, cutoff: nat, indentation: nat)
    ensures var cands := Candidates(rev, keys, help, options);
      forall i :: 0 <= i < |cands| && |cands[i]| <= cutoff ==> |cands[i]| <= MaxLength(rev, keys, help, options, cutoff, indentation)
    ensures var cands := Candidates(rev, keys, help, options);
      (exists i :: 0 <= i < |cands| && |cands[i]| == MaxLength(rev, keys, help, options, cutoff, indentation) <= cutoff)
      || (MaxLength(rev, keys, help, options, cutoff, indentation) == indentation && forall i :: 0 <= i < |cands| ==> |cands[i]| > cutoff)
  {
    var cands := Candidates(rev, keys, help, options);
    WidestFromSpec(0, cands, cutoff);
    CandidatesWide(rev, keys, help, options);
  }

  lemma {:induction false} CandidatesWide(rev: Revision, keys: seq<string>, help: OMap<Entry>, options: map<string, Record>)
    ensures forall i :: 0 <= i < |Candidates(rev, keys, help, options)| ==> |Candidates(rev, keys, help, options)[i]| >= 2
    decreases |keys|
  {
    if keys != [] {
      CandidatesWide(rev, keys[1..], help, options);
      var k := KeyCandidates(rev, keys[0], help, options);
      assert forall i :: 0 <= i < |k| ==> |k[i]| >= 2;
    }
  }

  // ---------------------------------------------------------------------
  // helpLine
  // ---------------------------------------------------------------------

  /** The layout fields `help()` works with. */
  datatype Layout = Layout(maxLength: nat, buffer: nat, cutoff: nat, columns: nat, indentAliases: nat)

  /** One line of a block: the next description line (`array_shift`, an empty
      line once they are used up) with `rendered`, indented by `indent`,
      laid over its leading `width` spaces; a rendering wider than the cutoff
      goes on a line of its own before the description line instead. */
  function HelpLineText(rendered: string, indent: nat, lines: seq<string>, cutoff: nat, width: nat): (r: (string, seq<string>))
    ensures r.1 == (if lines == [] then [] else lines[1..])
    ensures |r.0| >= 1
  {
    var line := if lines == [] then "" else lines[0];
    var rest := if lines == [] then [] else lines[1..];
    if |rendered| <= cutoff then
      var laid := match ReplaceIndent(Spaces(width), Spaces(indent) + rendered, line) case Some(o) => o case None => line;
      (laid + "\n", rest)
    else (rendered + "\n" + line + "\n", rest)
  }

  /** A rendering that fits the cutoff and the indentation takes the place of
      the leading spaces of the description line, which is otherwise kept. */
  lemma HelpLineOverlay(rendered: string, indent: nat, lines: seq<string>, cutoff: nat, width: nat)
    requires lines != [] && |rendered| <= cutoff && 1 <= width && indent + |rendered| <= width
    requires OccursAt(lines[0], Spaces(width), 0)
    ensures HelpLineText(rendered, indent, lines, cutoff, width).0
      == Spaces(indent) + rendered + lines[0][indent + |rendered|..] + "\n"
  {
    var repl := Spaces(indent) + rendered;
    ReplaceIndentOverlay(Spaces(width), repl, lines[0]);
    var o := ReplaceIndent(Spaces(width), repl, lines[0]).value;
    assert o == o[..|repl|] + o[|repl|..];
  }

  /** A rendering that fits the cutoff but not the indentation is dropped: the
      description line is printed alone. */
  lemma HelpLineNameTooWide(rendered: string, indent: nat, lines: seq<string>, cutoff: nat, width: nat)
    requires |rendered| <= cutoff && indent + |rendered| > width
    ensures HelpLineText(rendered, indent, lines, cutoff, width).0 == (if lines == [] then "" else lines[0]) + "\n"
  {
  }

  /** A rendering wider than the cutoff is printed on its own line, then the description line. */
  lemma HelpLineOwnLine(rendered: string, indent: nat, lines: seq<string>, cutoff: nat, width: nat)
    requires |rendered| > cutoff
    ensures HelpLineText(rendered, indent, lines, cutoff, width).0 == rendered + "\n" + (if lines == [] then "" else lines[0]) + "\n"
  {
  }

  /** `helpLine($key, $help, $alias)`: a non-empty alias (in PHP's sense, so
      not `"0"`) is rendered indented by `indentAliases`; otherwise the key
      itself, not indented; either way with the key's argument. */
  function OptionLine(alias: string, key: string, e: Entry, lines: seq<string>, layout: Layout): (r: (string, seq<string>))
    ensures |r.0| >= 1
  {
    var named := Truthy(Str(alias));
    HelpLineText(ToOption(if named then alias else key, e.arg, e.argIsOptional), if named then layout.indentAliases else 0,
                 lines, layout.cutoff, layout.maxLength + layout.buffer)
  }

  /** A non-empty alias that fits the cutoff and the indentation is laid,
      indented by `indentAliases`, over the leading spaces of the next
      description line, and that line is used up. */
  lemma AliasLineOverlay(alias: string, key: string, e: Entry, lines: seq<string>, layout: Layout)
    requires Truthy(Str(alias)) && lines != []
    requires var rendered := ToOption(alias, e.arg, e.argIsOptional);
      |rendered| <= layout.cutoff && layout.indentAliases + |rendered| <= layout.maxLength + layout.buffer
    requires OccursAt(lines[0], Spaces(layout.maxLength + layout.buffer), 0)
    ensures var rendered := ToOption(alias, e.arg, e.argIsOptional);
      OptionLine(alias, key, e, lines, layout)
      == (Spaces(layout.indentAliases) + rendered + lines[0][layout.indentAliases + |rendered|..] + "\n", lines[1..])
  {
    HelpLineOverlay(ToOption(alias, e.arg, e.argIsOptional), layout.indentAliases, lines, layout.cutoff,
                    layout.maxLength + layout.buffer);
  }

  /** Without an alias (`""`, or `"0"`, which PHP's `empty` also rejects) the
      key itself is laid over the start of the description line, not indented. */
  lemma KeyLineOverlay(alias: string, key: string, e: Entry, lines: seq<string>, layout: Layout)
    requires alias == "" || alias == "0"
    requires lines != []
    requires var rendered := ToOption(key, e.arg, e.argIsOptional);
      |rendered| <= layout.cutoff && |rendered| <= layout.maxLength + layout.buffer
    requires OccursAt(lines[0], Spaces(layout.maxLength + layout.buffer), 0)
    ensures var rendered := ToOption(key, e.arg, e.argIsOptional);
      OptionLine(alias, key, e, lines, layout) == (rendered + lines[0][|rendered|..] + "\n", lines[1..])
  {
    var rendered := ToOption(key, e.arg, e.argIsOptional);
    HelpLineOverlay(rendered, 0, lines, layout.cutoff, layout.maxLength + layout.buffer);
    assert Spaces(0) + rendered == rendered;
  }

  /** The line of an alias or key, as the layout step sees it. */
  lemma OptionLineLaid(alias: string, key: string, e: Entry, lines: seq<string>, layout: Layout)
    ensures var named := Truthy(Str(alias));
      OptionLine(alias, key, e, lines, layout)
      == HelpLineText(ToOption(if named then alias else key, e.arg, e.argIsOptional), if named then layout.indentAliases else 0,
                      lines, layout.cutoff, layout.maxLength + layout.buffer)
  {
  }

  // ---------------------------------------------------------------------
  // help
  // ---------------------------------------------------------------------

  /** The width `help()` wraps descriptions at; `Help.Help`'s precondition
      keeps it from going below zero. */
  function WrapWidth(layout: Layout): nat {
    if layout.columns + 1 >= layout.maxLength + layout.buffer then layout.columns + 1 - layout.maxLength - layout.buffer else 0
  }

  /** The description's lines: normalised, wrapped, indented by `maxLength + buffer` and split. */
  function DescriptionLines(e: Entry, layout: Layout, normalize: string -> string): seq<string> {
    Split(Indent(Wrapped(normalize(e.description), WrapWidth(layout)), layout.maxLength + layout.buffer), '\n')
  }

  /** The description lines of every entry under one layout. */
  function Describer(layout: Layout, normalize: string -> string): Entry -> seq<string> {
    e => DescriptionLines(e, layout, normalize)
  }

  /** The alias loop of `help()` on the buffer `buf`: while description
      lines remain, each alias takes the next one; after that each alias is
      printed on its own line. */
  function AliasLines(buf: string, aliases: seq<string>, key: string, e: Entry, lines: seq<string>, layout: Layout)
    : (r: (string, seq<string>))
    ensures |r.0| >= |buf|
    decreases |aliases|
  {
    if aliases == [] then (buf, lines)
    else
      var step := AliasLine(aliases[0], key, e, lines, layout);
      AliasLines(buf + step.0, aliases[1..], key, e, step.1, layout)
  }

  /** One alias: laid over the next description line while there is one,
      otherwise on a line of its own, indented by `indentAliases`. */
  function AliasLine(alias: string, key: string, e: Entry, lines: seq<string>, layout: Layout): (r: (string, seq<string>))
    ensures |r.0| >= 1
  {
    if lines != [] then OptionLine(alias, key, e, lines, layout)
    else (Spaces(layout.indentAliases) + ToOption(alias, e.arg, e.argIsOptional) + "\n", lines)
  }

  lemma PrefixTrans(a: string, b: string, c: string)
    requires |a| <= |b| <= |c| && b[..|a|] == a && c[..|b|] == b
    ensures c[..|a|] == a
  {
    assert c[..|a|] == c[..|b|][..|a|];
  }

  /** The alias lines only ever append to the buffer, and each alias ends a line. */
  lemma {:induction false} AliasLinesExtend(buf: string, aliases: seq<string>, key: string, e: Entry, lines: seq<string>,
                                            layout: Layout)
    ensures var r := AliasLines(buf, aliases, key, e, lines, layout).0;
      r[..|buf|] == buf
    decreases |aliases|
  {
    if aliases != [] {
      var step := AliasLine(aliases[0], key, e, lines, layout);
      var next := buf + step.0;
      var r := AliasLines(next, aliases[1..], key, e, step.1, layout);
      AliasLinesExtend(next, aliases[1..], key, e, step.1, layout);
      assert next[..|buf|] == buf;
      PrefixTrans(buf, next, r.0);
    }
  }

  /** The text ends a line: `substr($buf, -1) === "\n"`. */
  predicate EndsLine(t: string) {
    t != [] && t[|t| - 1] == '\n'
  }

  /** The end of a block: the description lines the aliases left, then a line
      feed unless the buffer already ends with one. */
  function CloseBlock(buf: string, lines: seq<string>): (r: string)
    ensures |r| >= |buf| && |r| > 0
  {
    var t := if lines != [] then buf + Join(lines, "\n") else buf;
    if EndsLine(t) then t else t + "\n"
  }

  /** Closing a block ends a line. */
  lemma CloseBlockEndsLine(buf: string, lines: seq<string>)
    ensures var r := CloseBlock(buf, lines); r[|r| - 1] == '\n'
  {
  }

  /** Closing a block only appends to the buffer. */
  lemma CloseBlockPrefix(buf: string, lines: seq<string>)
    ensures CloseBlock(buf, lines)[..|buf|] == buf
  {
    var t := if lines != [] then buf + Join(lines, "\n") else buf;
    assert t[..|buf|] == buf;
    assert (t + "\n")[..|t|] == t;
    if !EndsLine(t) {
      PrefixTrans(buf, t, t + "\n");
    }
  }

  /** A block after earlier output starts on a new line. */
  function BlockStart(buf: string): (r: string)
    ensures |r| >= |buf|
  {
    if buf != "" then buf + "\n" else buf
  }

  /** One iteration of `help()`'s block loop on the buffer `buf`, given the
      key's description lines: the key, not indented, over the first of them,
      then the aliases, then the lines they left. */
  function KeyBlock(buf: string, key: string, e: Entry, lines: seq<string>, options: map<string, Record>, layout: Layout)
    : (r: string)
    ensures |r| > |buf|
  {
    var started := BlockStart(buf);
    var first := OptionLine("", key, e, lines, layout);
    var aliased := AliasLines(started + first.0, Aliases(RecordAt(options, key)), key, e, first.1, layout);
    CloseBlock(aliased.0, aliased.1)
  }

  /** A block extends the buffer: after the line feed that separates it from
      earlier output, its first line starts with the key. */
  lemma KeyBlockExtends(buf: string, key: string, e: Entry, lines: seq<string>, options: map<string, Record>,
                        layout: Layout)
    ensures var r := KeyBlock(buf, key, e, lines, options, layout);
      var started := BlockStart(buf);
      var first := OptionLine("", key, e, lines, layout).0;
      && r[..|buf|] == buf && r[..|started|] == started
      && r[|started|..|started| + |first|] == first
  {
    var started := BlockStart(buf);
    var first := OptionLine("", key, e, lines, layout);
    var aliases := Aliases(RecordAt(options, key));
    var aliased := AliasLines(started + first.0, aliases, key, e, first.1, layout);
    var r := CloseBlock(aliased.0, aliased.1);
    AliasLinesExtend(started + first.0, aliases, key, e, first.1, layout);
    CloseBlockPrefix(aliased.0, aliased.1);
    PrefixTrans(started + first.0, aliased.0, r);
    assert started[..|buf|] == buf;
    PrefixParts(buf, started, first.0, r);
  }

  /** A text that starts with `a + b`, where `a` extends `buf`, starts with
      `buf` and with `a`, and holds `b` right after `a`. */
  lemma PrefixParts(buf: string, a: string, b: string, r: string)
    requires |buf| <= |a| && |a + b| <= |r| && r[..|a + b|] == a + b && a[..|buf|] == buf
    ensures r[..|buf|] == buf && r[..|a|] == a && r[|a|..|a| + |b|] == b
  {
    assert r[..|a|] == r[..|a + b|][..|a|];
    assert r[|a|..|a| + |b|] == r[..|a + b|][|a|..];
    PrefixTrans(buf, a, r);
  }

  /** A block ends a line. */
  lemma KeyBlockEndsLine(buf: string, key: string, e: Entry, lines: seq<string>, options: map<string, Record>,
                         layout: Layout)
    ensures EndsLine(KeyBlock(buf, key, e, lines, options, layout))
  {
    var started := BlockStart(buf);
    var first := OptionLine("", key, e, lines, layout);
    var aliased := AliasLines(started + first.0, Aliases(RecordAt(options, key)), key, e, first.1, layout);
    CloseBlockEndsLine(aliased.0, aliased.1);
  }

  /** A block after text that ends a line starts with a blank line. */
  lemma KeyBlockBlankLine(buf: string, key: string, e: Entry, lines: seq<string>, options: map<string, Record>,
                          layout: Layout)
    requires buf != "" && buf[|buf| - 1] == '\n'
    ensures var r := KeyBlock(buf, key, e, lines, options, layout);
      |r| > |buf| + 1 && r[|buf| - 1..|buf| + 1] == "\n\n"
  {
    var started := BlockStart(buf);
    var r := KeyBlock(buf, key, e, lines, options, layout);
    KeyBlockExtends(buf, key, e, lines, options, layout);
    assert started == buf + "\n";
    assert r[|buf| - 1] == started[|buf| - 1] && r[|buf|] == started[|buf|];
  }

  /** The blocks for `keys`, in turn, after the buffer `buf`: the blocks for
      all but the last key, then the last key's block; `describe` gives each
      entry's description lines. */
  function Blocks(buf: string, keys: seq<string>, help: OMap<Entry>, options: map<string, Record>, layout: Layout,
                  describe: Entry -> seq<string>): (r: string)
    requires forall k :: k in keys ==> k in help.m
    ensures |r| >= |buf|
    ensures keys != [] ==> |r| > |buf|
    decreases |keys|
  {
    if keys == [] then buf
    else
      var e := help.m[keys[|keys| - 1]];
      KeyBlock(Blocks(buf, keys[..|keys| - 1], help, options, layout, describe), keys[|keys| - 1], e, describe(e), options, layout)
  }

  /** The blocks only ever append to the buffer, the usage line included. */
  lemma {:induction false} BlocksExtend(buf: string, keys: seq<string>, help: OMap<Entry>, options: map<string, Record>,
                                        layout: Layout, describe: Entry -> seq<string>)
    requires forall k :: k in keys ==> k in help.m
    ensures Blocks(buf, keys, help, options, layout, describe)[..|buf|] == buf
    decreases |keys|
  {
    if keys != [] {
      var init := keys[..|keys| - 1];
      var e := help.m[keys[|keys| - 1]];
      var before := Blocks(buf, init, help, options, layout, describe);
      BlocksExtend(buf, init, help, options, layout, describe);
      KeyBlockExtends(before, keys[|keys| - 1], e, describe(e), options, layout);
      PrefixTrans(buf, before, Blocks(buf, keys, help, options, layout, describe));
    }
  }

  /** Once there is a block, the text ends a line. */
  lemma BlocksEndLine(buf: string, keys: seq<string>, help: OMap<Entry>, options: map<string, Record>,
                      layout: Layout, describe: Entry -> seq<string>)
    requires keys != [] && forall k :: k in keys ==> k in help.m
    ensures EndsLine(Blocks(buf, keys, help, options, layout, describe))
  {
    var e := help.m[keys[|keys| - 1]];
    var before := Blocks(buf, keys[..|keys| - 1], help, options, layout, describe);
    var r := KeyBlock(before, keys[|keys| - 1], e, describe(e), options, layout);
    KeyBlockEndsLine(before, keys[|keys| - 1], e, describe(e), options, layout);
    assert Blocks(buf, keys, help, options, layout, describe) == r;
  }

  /** `help()` lists the options in ascending string order of their names, each once. */
  lemma HelpOrder(help: OMap<Entry>)
    ensures SortedStrings(Sort(help.keys)) && multiset(Sort(help.keys)) == multiset(help.keys)
  {
    SortSorted(help.keys);
  }

  /** Every name `help()` visits is the name of an entry. */
  lemma SortedKeysListed(help: OMap<Entry>)
    requires help.Valid()
    ensures forall k :: k in Sort(help.keys) ==> k in help.m
  {
    HelpOrder(help);
    assert forall k :: k in Sort(help.keys) ==> k in multiset(help.keys);
  }

  /** The generator: `new Help($scriptName)` and its setters, `addDescription`
      and `help()`. */
  class Help {
    var buffer: nat
    var cutoff: nat
    var columns: nat
    var help: OMap<Entry>
    var indentAliases: nat
    const indentation: nat
    var maxLength: nat
    var options: map<string, Record>
    var scriptName: string
    var usage: string

    ghost predicate Valid()
      reads this
    {
      help.Valid()
    }

    function LayoutOf(): Layout
      reads this
    {
      Layout(maxLength, buffer, cutoff, columns, indentAliases)
    }

    /** An empty script name falls back on the first element of the process's argv. */
    constructor (name: string, serverArgv0: string)
      ensures Valid()
      ensures scriptName == (if name == "" then serverArgv0 else name)
      ensures buffer == 2 && cutoff == 20 && columns == 80 && indentAliases == 4 && indentation == 4 && maxLength == 0
      ensures help.keys == [] && options == map[] && usage == "Usage: %script [options]"
    {
      scriptName := if name == "" then serverArgv0 else name;
      buffer := 2;
      cutoff := 20;
      columns := 80;
      help := EmptyMap();
      indentAliases := 4;
      indentation := 4;
      maxLength := 0;
      options := map[];
      usage := "Usage: %script [options]";
    }

    method SetAliasIndentation(indent: nat)
      modifies this`indentAliases
      ensures indentAliases == indent
    {
      indentAliases := indent;
    }

    method SetMaxColumns(n: nat)
      modifies this`columns
      ensures columns == n
    {
      columns := n;
    }

    method SetOptionBuffer(n: nat)
      modifies this`buffer
      ensures buffer == n
    {
      buffer := n;
    }

    method SetOptionCutoff(n: nat)
      modifies this`cutoff
      ensures cutoff == n
    {
      cutoff := n;
    }

    method SetOptions(o: map<string, Record>)
      modifies this`options
      ensures options == o
    {
      options := o;
    }

    method SetUsage(u: string)
      modifies this`usage
      ensures usage == u
    {
      usage := u;
    }

    /** `addDescription($option, $description, $arg)`: a fresh entry replaces any earlier one. */
    method AddDescription(option: string, description: string, arg: string)
      requires Valid()
      modifies this`help
      ensures Valid()
      ensures help == old(help).Put(option, Entry(description, arg, false))
      ensures option in help.m && help.m[option] == Entry(description, arg, false)
    {
      help := help.Put(option, Entry(description, arg, false));
    }

    /** `calculateMaxLength($keys)`: the width, and a buffer of 0 when no rendering fits the cutoff. */
    method CalculateMaxLength(rev: Revision, keys: seq<string>) returns (width: nat)
      modifies this`buffer
      ensures width == MaxLength(rev, keys, help, options, cutoff, indentation)
      ensures buffer == if WidestFrom(0, Candidates(rev, keys, help, options), cutoff) == 0 then 0 else old(buffer)
    {
      width := 0;
      for i := 0 to |keys|
        invariant buffer == old(buffer)
        invariant WidestFrom(width, Candidates(rev, keys[i..], help, options), cutoff)
          == WidestFrom(0, Candidates(rev, keys, help, options), cutoff)
      {
        assert keys[i..][0] == keys[i] && keys[i..][1..] == keys[i + 1..];
        WidestFromAppend(width, KeyCandidates(rev, keys[i], help, options), Candidates(rev, keys[i + 1..], help, options), cutoff);
        var rendered := Render(keys[i], EntryAt(help, keys[i]));
        width := KeyWidest(rev, width, keys[i], rendered);
      }
      assert keys[|keys|..] == [];
      if width == 0 {
        width := indentation;
        buffer := 0;
      }
    }

    /** The body of `calculateMaxLength`'s loop for one key. */
    method KeyWidest(rev: Revision, acc: nat, key: string, rendered: string) returns (width: nat)
      requires rendered == Render(key, EntryAt(help, key))
      ensures width == WidestFrom(acc, KeyCandidates(rev, key, help, options), cutoff)
    {
      width := acc;
      if |rendered| <= cutoff && |rendered| > width {
        width := |rendered|;
      }
      var owner := AliasOwner(rev, key, rendered);
      var entry := EntryAt(help, owner);
      var aliases := Aliases(RecordAt(options, owner));
      ghost var cands := seq(|aliases|, i requires 0 <= i < |aliases| => Render(aliases[i], entry));
      assert KeyCandidates(rev, key, help, options) == [rendered] + cands;
      assert WidestFrom(acc, KeyCandidates(rev, key, help, options), cutoff) == WidestFrom(width, cands, cutoff) by {
        assert ([rendered] + cands)[1..] == cands;
      }
      for j := 0 to |aliases|
        invariant WidestFrom(width, cands[j..], cutoff) == WidestFrom(acc, KeyCandidates(rev, key, help, options), cutoff)
      {
        assert cands[j..][0] == cands[j] && cands[j..][1..] == cands[j + 1..];
        var alias := Render(aliases[j], entry);
        if |alias| <= cutoff && |alias| > width {
          width := |alias|;
        }
      }
    }

    /** `helpLine($key, $help, $alias)` */
    method HelpLine(key: string, lines: seq<string>, alias: string) returns (text: string, rest: seq<string>)
      requires key in help.m
      ensures (text, rest) == OptionLine(alias, key, help.m[key], lines, LayoutOf())
    {
      var e := help.m[key];
      var name, indent := key, 0;
      if Truthy(Str(alias)) {
        name, indent := alias, indentAliases;
      }
      var rendered := ToOption(name, e.arg, e.argIsOptional);
      text, rest := LayLine(rendered, indent, lines, cutoff, maxLength + buffer);
      OptionLineLaid(alias, key, e, lines, LayoutOf());
    }

    /** The layout step of `helpLine`, once the name is rendered. */
    static method LayLine(rendered: string, indent: nat, lines: seq<string>, cutoff: nat, width: nat)
      returns (text: string, rest: seq<string>)
      ensures (text, rest) == HelpLineText(rendered, indent, lines, cutoff, width)
    {
      var line := if lines == [] then "" else lines[0];
      rest := if lines == [] then [] else lines[1..];
      if |rendered| <= cutoff {
        var laid := ReplaceIndent(Spaces(width), Spaces(indent) + rendered, line);
        if laid.Some? {
          line := laid.value;
        }
        text := line + "\n";
      } else {
        text := rendered + "\n" + line + "\n";
      }
    }

    /** One iteration of `help()`'s block loop. */
    method AppendBlock(buf: string, key: string, normalize: string -> string) returns (r: string)
      requires key in help.m && maxLength + buffer <= columns + 1
      ensures r == KeyBlock(buf, key, help.m[key], DescriptionLines(help.m[key], LayoutOf(), normalize), options, LayoutOf())
    {
      var e := help.m[key];
      r := buf;
      if r != "" {
        r := r + "\n";
      }
      var text, rest := FirstLine(key, normalize);
      r, rest := AliasLoop(r + text, key, rest);
      r := Close(r, rest);
    }

    /** The description of `key` wrapped, indented and split, and its first
        line with the key laid over it. */
    method FirstLine(key: string, normalize: string -> string) returns (text: string, rest: seq<string>)
      requires key in help.m && maxLength + buffer <= columns + 1
      ensures (text, rest) == OptionLine("", key, help.m[key], DescriptionLines(help.m[key], LayoutOf(), normalize), LayoutOf())
    {
      var lines := Description(help.m[key], normalize);
      text, rest := HelpLine(key, lines, "");
    }

    /** The description wrapped at the width left of the columns, indented
        by `maxLength + buffer` and split into lines. */
    method Description(e: Entry, normalize: string -> string) returns (lines: seq<string>)
      requires maxLength + buffer <= columns + 1
      ensures lines == DescriptionLines(e, LayoutOf(), normalize)
    {
      ghost var layout := LayoutOf();
      var width: nat := columns + 1 - maxLength - buffer;
      var indent := maxLength + buffer;
      assert WrapWidth(layout) == width && layout.maxLength + layout.buffer == indent;
      var wrapped := Wrap(normalize(e.description), width);
      lines := Split(Indent(wrapped, indent), '\n');
      assert DescriptionLines(e, layout, normalize) == Split(Indent(wrapped, indent), '\n');
    }

    /** The alias loop inside one block of `help()`. */
    method AliasLoop(buf: string, key: string, lines: seq<string>) returns (r: string, rest: seq<string>)
      requires key in help.m
      ensures (r, rest) == AliasLines(buf, Aliases(RecordAt(options, key)), key, help.m[key], lines, LayoutOf())
    {
      var e := help.m[key];
      var aliases := Aliases(RecordAt(options, key));
      r, rest := buf, lines;
      for j := 0 to |aliases|
        invariant AliasLines(r, aliases[j..], key, e, rest, LayoutOf()) == AliasLines(buf, aliases, key, e, lines, LayoutOf())
      {
        assert aliases[j..][0] == aliases[j] && aliases[j..][1..] == aliases[j + 1..];
        var text;
        if rest != [] {
          text, rest := HelpLine(key, rest, aliases[j]);
        } else {
          text := Spaces(indentAliases) + ToOption(aliases[j], e.arg, e.argIsOptional) + "\n";
        }
        r := r + text;
      }
      assert aliases[|aliases|..] == [];
    }

    /** The description lines the aliases left, and the closing line feed. */
    static method Close(buf: string, rest: seq<string>) returns (r: string)
      ensures r == CloseBlock(buf, rest)
    {
      r := buf;
      if rest != [] {
        r := r + Join(rest, "\n");
      }
      if r == [] || r[|r| - 1] != '\n' {
        r := r + "\n";
      }
    }

    /** `help()`: the usage line; then each entry's description is parsed, in
        ascending order of the option names; then the width; then the blocks
        in that order. String normalisation and description parsing are
        parameters. */
    method Help(rev: Revision, normalize: string -> string, describe: (string, Entry) -> Entry) returns (buf: string)
      requires Valid()
      requires cutoff + buffer <= columns + 1 && indentation <= columns + 1
      modifies this`help, this`maxLength, this`buffer
      ensures Valid()
      ensures help == OMap(old(help).keys, UpdateEach(old(help).m, Sort(old(help).keys), describe))
      ensures forall k :: k in Sort(help.keys) ==> k in help.m
      ensures maxLength == MaxLength(rev, Sort(help.keys), help, options, cutoff, indentation)
      ensures buffer == if WidestFrom(0, Candidates(rev, Sort(help.keys), help, options), cutoff) == 0 then 0 else old(buffer)
      ensures buf == Blocks(ParseUsage(usage, scriptName), Sort(help.keys), help, options, LayoutOf(), Describer(LayoutOf(), normalize))
    {
      var keys := Sort(help.keys);
      Prepare(rev, keys, describe);
      assert keys == Sort(help.keys);
      buf := ParseUsage(usage, scriptName);
      buf := AppendBlocks(buf, keys, normalize);
    }

    /** The description parsing and the width computation that precede the blocks. */
    method Prepare(rev: Revision, keys: seq<string>, describe: (string, Entry) -> Entry)
      requires Valid() && keys == Sort(help.keys)
      requires cutoff + buffer <= columns + 1 && indentation <= columns + 1
      modifies this`help, this`maxLength, this`buffer
      ensures Valid() && help.keys == old(help).keys
      ensures help == OMap(old(help).keys, UpdateEach(old(help).m, keys, describe))
      ensures forall k :: k in keys ==> k in help.m
      ensures maxLength == MaxLength(rev, keys, help, options, cutoff, indentation)
      ensures buffer == if WidestFrom(0, Candidates(rev, keys, help, options), cutoff) == 0 then 0 else old(buffer)
      ensures maxLength + buffer <= columns + 1
    {
      SortedKeysListed(help);
      DescribeAll(keys, describe);
      SetWidth(rev, keys);
    }

    /** The description parsing of `help()`, in the order of `keys`. */
    method DescribeAll(keys: seq<string>, describe: (string, Entry) -> Entry)
      requires Valid() && forall k :: k in keys ==> k in help.m
      modifies this`help
      ensures Valid()
      ensures help == OMap(old(help).keys, UpdateEach(old(help).m, keys, describe))
      ensures forall k :: k in keys ==> k in help.m
    {
      help := UpdateAll(help, keys, describe);
      assert help.keys == old(help).keys && help.m.Keys == old(help).m.Keys;
    }

    /** The width computation of `help()`: `maxLength`, and `buffer` dropped
        to zero when no rendering fits the cutoff. */
    method SetWidth(rev: Revision, keys: seq<string>)
      requires cutoff + buffer <= columns + 1 && indentation <= columns + 1
      modifies this`maxLength, this`buffer
      ensures maxLength == MaxLength(rev, keys, help, options, cutoff, indentation)
      ensures buffer == if WidestFrom(0, Candidates(rev, keys, help, options), cutoff) == 0 then 0 else old(buffer)
      ensures maxLength + buffer <= columns + 1
    {
      ghost var w := WidestFrom(0, Candidates(rev, keys, help, options), cutoff);
      maxLength := CalculateMaxLength(rev, keys);
      WidestFromBound(0, Candidates(rev, keys, help, options), cutoff);
      if w == 0 {
        assert maxLength == indentation && buffer == 0;
      } else {
        assert maxLength == w <= cutoff && buffer == old(buffer);
      }
    }

    /** The block loop of `help()`. */
    method AppendBlocks(buf: string, keys: seq<string>, normalize: string -> string) returns (r: string)
      requires forall k :: k in keys ==> k in help.m
      requires maxLength + buffer <= columns + 1
      ensures r == Blocks(buf, keys, help, options, LayoutOf(), Describer(LayoutOf(), normalize))
    {
      r := buf;
      ghost var describe := Describer(LayoutOf(), normalize);
      for i := 0 to |keys|
        invariant r == Blocks(buf, keys[..i], help, options, LayoutOf(), describe)
      {
        assert keys[..i + 1][..i] == keys[..i] && keys[..i + 1][i] == keys[i];
        assert describe(help.m[keys[i]]) == DescriptionLines(help.m[keys[i]], LayoutOf(), normalize);
        r := AppendBlock(r, keys[i], normalize);
      }
      assert keys[..|keys|] == keys;
    }
  }
}
