# optionally — a Dafny model

This project models the core of *optionally*, a PHP library for declaring
command-line options with a fluent API and reading them back after parsing.
Four parts make up that core:

- **The tokenizer** (`Getopt`, proved in `GetoptProperties`). It is a modified
  PEAR `Console_Getopt`. It walks the argument vector with an array pointer,
  splits `-abc` clusters, reads `x`/`x:`/`x::` short declarations and
  `name`/`name=`/`name==` long declarations, and returns the occurrences and
  the trailing positionals, or one of its exceptions. The source's
  step-by-step code is the `Getopt.Scanner` class. Its `args` and `opts`
  fields stand for the PHP array, its pointer and the by-reference `$opts`.
  Each method of that class is proved equal to a specification function
  (`ShortLetter`, `ParseShort`, `MatchLong`, `ParseLong`, `WalkStep`,
  `Walk`, `Tokenize`).
- **The resolver** (`Resolver`). This is the `Options` container of both
  generations. `parseOptions` turns occurrences into one value per name.
  The constructor then applies six passes, in order, to each option-map
  entry: requiredIfNull, boolean false, defaults, ifMissing, required, filter.
  `__get`, `getOption` and `args` read the result back.
- **The builders.** There are three generations of the fluent builder: the
  namespaced `Optionally` (`Builder`, handing over to `OptionBuilder`),
  `src/Optionally.php` (`ArgvBuilder`) and the legacy `Optionally.class.php`
  (`LegacyBuilder`, with its option cache). Each is a class whose option
  records (ordered PHP arrays, `Php.OMap`) are edited through the "last
  option" cursor. All of them turn records into getopt spec strings through
  `Declare` and `Naming` (`getSuffixForOption`, `mangle`).
- **The string and help helpers** (`Strings`, `Help`). These are
  `normalizeLineEndings`, `indent`, `replaceIndent` and `wrap`. The help
  side is `toOption`, the width computation and the block layout of `help()`.

`Php` holds the PHP values the library works on: a `Value` datatype with
PHP truthiness, records as string-keyed maps, ordered arrays, `strpos`,
`str_replace`, `explode`, `implode` and `sort`. A `Revision` parameter
(`AsWritten` or `Intended`) selects between the code as written and the
corrected code where the three findings below apply.

## Model

| member | source | states |
|---|---|---|
| Getopt.Tokenize | src/DESTRealm/Optionally/Getopt/Getopt.php:124-126 | an empty argument list yields no options and no positionals |
| Getopt.SplitAtEq | src/DESTRealm/Optionally/Getopt/Getopt.php:292 | `explode('=', $arg, 2)`: the name holds no `=`, and the name, `=` and the inline value give back the token |
| Getopt.FindLong | src/DESTRealm/Optionally/Getopt/Getopt.php:296-305 | the index found is the first declaration from `from` whose `=`-free name equals the option exactly; none means no declaration matches |
| Getopt.ShortLetter | src/DESTRealm/Optionally/Getopt/Getopt.php:195-248 | one letter only moves the pointer forward, within the input, and only appends to the recorded options |
| Getopt.ParseShort | src/DESTRealm/Optionally/Getopt/Getopt.php:193-249 | a cluster only moves the pointer forward and only appends options |
| Getopt.MatchLong | src/DESTRealm/Optionally/Getopt/Getopt.php:307-364 | a matched declaration that does not throw records exactly one more option and keeps the earlier ones |
| Getopt.ParseLong | src/DESTRealm/Optionally/Getopt/Getopt.php:290-374 | a long option only moves the pointer forward and only appends options |
| Getopt.WalkStep | src/DESTRealm/Optionally/Getopt/Getopt.php:147-176 | a loop step that continues has read at least one token |
| Getopt.WalkStepEnds | src/DESTRealm/Optionally/Getopt/Getopt.php:151-158 | on `--` the positionals are the tokens after it; on a token that starts the positionals they are that token and the rest |
| Getopt.WalkStepLong | src/DESTRealm/Optionally/Getopt/Getopt.php:159-164 | a `--name` token is handed to the long-option parser with `--` removed and the pointer past it |
| Getopt.WalkStepShort | src/DESTRealm/Optionally/Getopt/Getopt.php:169-175 | a `-abc` token is handed to the short-option parser with `-` removed |
| Getopt.Scanner.constructor | src/DESTRealm/Optionally/Getopt/Getopt.php:146 | `reset($args)`: the pointer is at the first token and nothing is recorded |
| Getopt.Scanner.Each | src/DESTRealm/Optionally/Getopt/Getopt.php:147 | `each()` returns the token under the pointer and moves on, or false at the end |
| Getopt.Scanner.Prev | src/DESTRealm/Optionally/Getopt/Getopt.php:221 | `prev()` steps back, and a pointer at the first element or past the end is past the end afterwards |
| Getopt.Scanner.CurrentValue | src/DESTRealm/Optionally/Getopt/Getopt.php:344-349 | `current()` is the token under the pointer, or false past the end |
| Getopt.Scanner.Next | src/DESTRealm/Optionally/Getopt/Getopt.php:350 | `next()` moves the pointer one token on, no further than the end |
| Getopt.Scanner.ParseLetter | src/DESTRealm/Optionally/Getopt/Getopt.php:196-247 | the loop body for one letter does what `ShortLetter` specifies |
| Getopt.Scanner.ParseShortOption | src/DESTRealm/Optionally/Getopt/Getopt.php:193-249 | the loop over a cluster does what `ParseShort` specifies |
| Getopt.Scanner.ParseLongOption | src/DESTRealm/Optionally/Getopt/Getopt.php:290-374 | the loop over the long declarations does what `ParseLong` specifies |
| Getopt.Scanner.MatchLongOption | src/DESTRealm/Optionally/Getopt/Getopt.php:307-364 | the body for a matched declaration does what `MatchLong` specifies |
| Getopt.Scanner.Dispatch | src/DESTRealm/Optionally/Getopt/Getopt.php:151-175 | the body of the token loop does what `WalkStep` specifies |
| Getopt.DoGetopt | src/DESTRealm/Optionally/Getopt/Getopt.php:121-179 | `doGetopt` returns what `Tokenize` specifies, thrown exceptions included |
| Getopt.Getopt2 | src/DESTRealm/Optionally/Getopt/Getopt.php:88-91 | `getopt2` is version 2 of `doGetopt` |
| Getopt.Getopt1 | src/DESTRealm/Optionally/Getopt/Getopt.php:105-108 | `getopt` is version 1 of `doGetopt` |
| GetoptProperties.TokenizePositionalTail | src/DESTRealm/Optionally/Getopt/Getopt.php:146-178 | the loop stops at the first token it reads as the start of an iteration that is `--` (the positionals are the tokens after it) or that is empty, does not start with `-`, or is `-` (the positionals start there), or when the input runs out (none); every earlier such token was an option, and the options returned are exactly those recorded up to the stop |
| GetoptProperties.WalkPositionalTail | src/DESTRealm/Optionally/Getopt/Getopt.php:147-178 | the same for the loop from any pointer position |
| GetoptProperties.WalkStepKinds | src/DESTRealm/Optionally/Getopt/Getopt.php:151-175 | an iteration that carries on was on an option token; one that returns without an error was on `--` or on a token that starts the positionals |
| GetoptProperties.Version1DropsScriptName | src/DESTRealm/Optionally/Getopt/Getopt.php:140-144 | version 1 equals version 2 on the arguments after a leading script name |
| GetoptProperties.FlagsThen | src/DESTRealm/Optionally/Getopt/Getopt.php:195-248 | flags at the head of a cluster are recorded with null values, in order, and parsing carries on at the first letter that is not a flag (`-vo file` reads `v`, then `o`) |
| GetoptProperties.ClusterOfFlags | src/DESTRealm/Optionally/Getopt/Getopt.php:195-248 | in a cluster of letters declared without `:`, each letter is recorded with a null value, left to right, and the pointer does not move |
| GetoptProperties.ShortInlineValue | src/DESTRealm/Optionally/Getopt/Getopt.php:211-230 | a `:` or `::` letter that is not the last of its cluster takes the rest of the cluster as its value (`-ofile`) and ends the cluster |
| GetoptProperties.RequiredShortTakesNextToken | src/DESTRealm/Optionally/Getopt/Getopt.php:226-247 | a `:` letter that ends its cluster, at any position, takes the next token, and raises REQUIRES_ARGUMENT exactly when that token is missing or option-like |
| GetoptProperties.OptionalShortValue | src/DESTRealm/Optionally/Getopt/Getopt.php:217-224 | a `::` letter that ends its cluster takes the next token when it is there and not option-like, and is otherwise recorded with null; after an option-like token the pointer is back on it, except as written when that token was the last one |
| GetoptProperties.UnknownShortLetter | src/DESTRealm/Optionally/Getopt/Getopt.php:200-207 | an undeclared letter raises UNRECOGNIZED_OPTION, or with `skip_unknown` abandons the rest of its cluster and records nothing |
| GetoptProperties.ShortArityNone | src/DESTRealm/Optionally/Getopt/Getopt.php:200 | a letter is unrecognized exactly when it is `:` or missing from the spec string |
| GetoptProperties.TokenizeDeclared | src/DESTRealm/Optionally/Getopt/Getopt.php:121-179 | every returned option is declared, as a short letter or as `--` and a long name, and its value has the shape its declaration allows |
| GetoptProperties.WalkDeclared | src/DESTRealm/Optionally/Getopt/Getopt.php:147-176 | the loop keeps every recorded option declared |
| GetoptProperties.WalkStepDeclared | src/DESTRealm/Optionally/Getopt/Getopt.php:151-175 | one loop step keeps every recorded option declared |
| GetoptProperties.ShortLetterDeclared | src/DESTRealm/Optionally/Getopt/Getopt.php:210-247 | one letter records at most one option, and a declared one |
| GetoptProperties.ParseShortDeclared | src/DESTRealm/Optionally/Getopt/Getopt.php:193-249 | a cluster records only declared options |
| GetoptProperties.ParseLongDeclared | src/DESTRealm/Optionally/Getopt/Getopt.php:290-374 | a long option records only a declared option |
| GetoptProperties.MatchLongDeclared | src/DESTRealm/Optionally/Getopt/Getopt.php:328-364 | a matched declaration keeps every recorded option declared |
| GetoptProperties.WalkLongDeclared | src/DESTRealm/Optionally/Getopt/Getopt.php:159-164 | a `--name` token keeps every recorded option declared |
| GetoptProperties.WalkShortDeclared | src/DESTRealm/Optionally/Getopt/Getopt.php:169-175 | a `-abc` token keeps every recorded option declared |
| GetoptProperties.MatchLongRecords | src/DESTRealm/Optionally/Getopt/Getopt.php:328-363 | a matched declaration records `--` and the name, with a value that fits the declaration |
| GetoptProperties.UnknownLongOption | src/DESTRealm/Optionally/Getopt/Getopt.php:367-373 | a name that matches no declaration raises UNRECOGNIZED_OPTION, unless `skip_unknown` is set, in which case nothing changes |
| GetoptProperties.PlainLongNeverAmbiguous | src/DESTRealm/Optionally/Getopt/Getopt.php:300-326 | a declaration without `=` matches only its own spelling and is never ambiguous |
| GetoptProperties.OptionalLongNeedsSkip | src/DESTRealm/Optionally/Getopt/Getopt.php:343-373 | an `==` declaration leaves the loop with `break`: without `skip_unknown` it raises UNRECOGNIZED_OPTION, and with it the occurrence is recorded |
| GetoptProperties.RequiredLongValue | src/DESTRealm/Optionally/Getopt/Getopt.php:328-342 | an `=` declaration takes a non-empty inline value, else the next token; an option-like value raises REQUIRES_ARGUMENT, and neither value nor next token raises the code-less exception |
| GetoptProperties.AmbiguousIff | src/DESTRealm/Optionally/Getopt/Getopt.php:311-326 | a long option raises AMBIGUOUS_OPTION exactly when its first exact match takes a value and the next declaration in order continues its name with something other than `=` |
| GetoptProperties.RequiredLongAtEnd | src/DESTRealm/Optionally/Getopt/Getopt.php:328-335 | an `=` declaration with no inline value at the end of the input raises the code-less exception |
| GetoptProperties.FlagWithInlineValue | src/DESTRealm/Optionally/Getopt/Getopt.php:357-363 | a truthy inline value on a declaration without `=` raises ARGUMENT_NOT_ALLOWED; an empty or `"0"` value is recorded |
| GetoptProperties.AmbiguousExample | src/DESTRealm/Optionally/Getopt/Getopt.php:132-134 | with `ab` and `a=` declared, `--a` raises AMBIGUOUS_OPTION after the long list is sorted |
| GetoptProperties.AmbiguousMatch | src/DESTRealm/Optionally/Getopt/Getopt.php:311-326 | example: `--a` against the sorted declarations `a=` and `ab` raises AMBIGUOUS_OPTION |
| GetoptProperties.AsWrittenDropsFinalOption | src/DESTRealm/Optionally/Getopt/Getopt.php:217-222 | as written, with `a::b` declared, `-a -b` records `a` and loses `-b` |
| GetoptProperties.IntendedKeepsFinalOption | src/DESTRealm/Optionally/Getopt/Getopt.php:217-222 | corrected, `-a -b` records both `a` and `b` |
| GetoptProperties.IntendedConsumesOnlyValues | src/DESTRealm/Optionally/Getopt/Getopt.php:210-247 | corrected, a cluster moves the pointer past the next token only when it took that token as a value |
| GetoptProperties.IntendedLetter | src/DESTRealm/Optionally/Getopt/Getopt.php:210-247 | corrected, one letter ends where it started, or it took the next token as the value of the cluster's last letter |
| Php.SortSorted | src/DESTRealm/Optionally/Getopt/Getopt.php:132-134 | `sort` orders the strings by `strcmp` |
| Php.Sort | src/DESTRealm/Optionally/Getopt/Getopt.php:132-134 | `sort` keeps the same strings (a permutation) |
| Php.IndexOfSpec | src/DESTRealm/Optionally/String.php:96 | `strpos` finds the first occurrence of a non-empty needle and fails exactly when there is none |
| Php.FirstIndex | src/DESTRealm/Optionally/Getopt/Getopt.php:200 | the position `strstr` finds for one character: the first holding it, or none exactly when it does not occur |
| Php.LastIndex | src/DESTRealm/Optionally/String.php:135 | `strrpos` of one character: the last position holding it, or none exactly when it does not occur |
| Php.Spaces | src/DESTRealm/Optionally/String.php:19 | `str_repeat(' ', n)` is `n` spaces |
| Php.Split | src/DESTRealm/Optionally/Help.php:203 | `explode` gives at least one part and no part holds the delimiter |
| Php.InsertSorted | src/DESTRealm/Optionally/Getopt/Getopt.php:132-134 | inserting into a sorted list keeps it sorted |
| Php.Put | src/DESTRealm/Optionally/Options.php:244 | `$a[$k] = $v`: the entry is set, an existing key keeps its place and a new key goes last |
| Php.ReplaceRemovesChar | src/DESTRealm/Optionally/String.php:74-81 | replacing a character by text without it leaves none of it |
| Php.JoinSplit | src/DESTRealm/Optionally/Help.php:203-211 | `implode` of an `explode` with the same delimiter gives back the text |
| Php.SplitJoin | src/DESTRealm/Optionally/Help.php:231 | `explode` of an `implode` of delimiter-free lines gives back the lines |
| Php.UpdateEachSpec | src/DESTRealm/Optionally/Help.php:184-186 | a pass over distinct keys updates each listed entry once, from its own value, and keeps the others |
| Php.UpdateAll | src/DESTRealm/Optionally/Help.php:184-186 | the pass in place keeps the keys in order and computes `UpdateEach` |
| Php.PutAllSpec | src/DESTRealm/Optionally/Options.php:252-254 | assigning a value to each name of a list: every name holds it, every other entry is kept |
| Naming.MangleCount | src/Optionally.php:607-620 | a name has spellings exactly when it contains `-`, and then two |
| Naming.MapChar | src/Optionally.php:611-612 | every occurrence of one character is replaced by another and every other character is kept |
| Naming.UcFirstAll | src/Optionally.php:615 | `array_map('ucfirst', $parts)` applies `ucfirst` to each part |
| Naming.UnderscoreSpelling | src/Optionally.php:610-612 | the first spelling is the name with every `-` made `_` |
| Naming.UnderscoreSpellingInverse | src/Optionally.php:610-612 | that spelling turns back into the name when the name has no `_` of its own |
| Naming.SpellingsHaveNoHyphen | src/Optionally.php:607-620 | neither spelling contains `-` |
| Naming.MangleExample | src/Optionally.php:607-620 | `std-out` is spelt `std_out` and `stdOut` |
| Naming.JoinSplitMaps | src/Optionally.php:611-612 | splitting at `-` and joining with `_` replaces every `-` by `_` |
| Declare.SuffixRoundTrip | src/Optionally.php:570-600 | `getSuffixForOption` asks the tokenizer for exactly the arity the flags declare: `:`/`::` for a short name, `=`/`==` for a long one, and `optional` alone changes nothing |
| Declare.LongSuffixArity | src/Optionally.php:570-600 | a long name with its suffix is read back with the declared arity |
| Declare.ShortRoundTrip | src/Optionally.php:200-243 | every one-character name in the short spec string is read back by the tokenizer with its declared arity, the first declaration winning; an undeclared letter is unrecognized |
| Declare.LongRoundTrip | src/Optionally.php:200-243 | every long name is found by exact match in the sorted long list, with its declared arity |
| Declare.LongSpecFrom | src/Optionally.php:200-243 | every entry of the long list is a long name with its suffix |
| Declare.OptionMapCovers | src/Optionally.php:222-232 | every option name and alias is in the option map |
| Declare.OptionMapOwners | src/Optionally.php:222-232 | every option-map entry leads to an option that answers to that name |
| Declare.OptionMapSound | src/Optionally.php:212-245 | the option map answers every name and alias, each with an option that declares it |
| Declare.BuildFromSpec | src/Optionally.php:212-245 | the loop over the records builds the spec strings the declarations call for and the option map |
| Declare.BuildSpec | src/Optionally.php:212-245 | `argv`'s loop: the short string, the long list and the option map are those of the declarations |
| Declare.BuildFromShort | src/Optionally.php:212-245 | the loop appends the short spec of every declaration, in order |
| Declare.BuildFromLong | src/Optionally.php:212-245 | the loop appends the long spec of every declaration, in order |
| Declare.BuildFromMap | src/Optionally.php:222-232 | the loop maps each option and then its aliases, later assignments overwriting earlier ones |
| Declare.AddNamesShort | src/Optionally.php:229-243 | the aliases of one option append their short declarations |
| Declare.AddNamesLong | src/Optionally.php:229-243 | the aliases of one option append their long declarations |
| Declare.AddNamesMap | src/Optionally.php:232 | the aliases of one option all map to it |
| Declare.AppendOption | src/Optionally.php:214-243 | one record appends its name and aliases, with its flags, and maps them to the option |
| Declare.Append | src/Optionally.php:200-208 | `appendOpts` appends a one-character name to the short string and any other to the long list |
| Resolver.StripRemovesDoubleDash | src/DESTRealm/Optionally/Options.php:233 | no stored occurrence name contains `--` |
| Resolver.StripKeepsPlainName | src/DESTRealm/Optionally/Options.php:233 | a name without `--` is stored as it is |
| Resolver.LongOccurrenceName | src/DESTRealm/Optionally/Options.php:233 | the tokenizer's `--name` is stored as `name` |
| Resolver.ParseStepSpec | Options.class.php:197-218 | an occurrence is stored under its master, and its master and every alias listed in the master's settings hold the stored value; nothing else changes |
| Resolver.ParseLastWins | Options.class.php:208-218 | a repeated option keeps only its last value, shared by its aliases |
| Resolver.StoredBoolean | src/DESTRealm/Optionally/Options.php:247-249 | a boolean given an empty value is stored as `true`; any other value as given |
| Resolver.ParsedBooleanTruthy | src/DESTRealm/Optionally/Options.php:239-254 | no parsed value of a declared boolean option is falsy |
| Resolver.ParseFromAppend | src/DESTRealm/Optionally/Options.php:227-256 | the loop over occurrences is one step per occurrence, in order |
| Resolver.ParseOccurrences | src/DESTRealm/Optionally/Options.php:223-258 | `parseOptions`' loop computes `ParseOptions` |
| Resolver.ParseOne | src/DESTRealm/Optionally/Options.php:229-255 | one pass of that loop computes `ParseStep` |
| Resolver.CopyToAliases | src/DESTRealm/Optionally/Options.php:252-254 | every alias receives the option's value |
| Resolver.IfNullThrows | src/DESTRealm/Optionally/Options.php:82-89 | the requiredIfNull pass throws exactly when the option and its partner are both absent |
| Resolver.BooleanFalseSets | src/DESTRealm/Optionally/Options.php:92-98 | an absent boolean option is `false` under its master and its aliases |
| Resolver.DefaultsOverwrite | src/DESTRealm/Optionally/Options.php:102-111 | a present option with an optional value, defaults and no ifMissing gets its defaults under master and aliases, even when a value was given |
| Resolver.IfMissingSets | src/DESTRealm/Optionally/Options.php:114-120 | an absent option with an ifMissing value receives it under its master and aliases |
| Resolver.RequiredThrows | src/DESTRealm/Optionally/Options.php:114-128 | the required check fails exactly when the option is absent, required, not boolean and without an ifMissing value, because ifMissing is assigned first |
| Resolver.FilterOutcome | src/DESTRealm/Optionally/Options.php:131-146 | the filter runs only for an option with `value`; a rejected value throws without a filterFailure, else only the master takes the filterFailure |
| Resolver.GetOptionOrder | src/DESTRealm/Optionally/Options.php:186-208 | `getOption` tries the exact key, then the option map, then the underscore and camelCase spellings of a hyphenated name, else null |
| Resolver.GetOptionCamelCase | src/DESTRealm/Optionally/Options.php:196-205 | `std-out` is read through `stdOut` when neither the name nor `std_out` is known |
| Resolver.ExactIgnoresOptionMap | Options.class.php:151-159 | the legacy `__get` reads the exact key only: an unstored alias is null there but its master's value through `getOption` |
| Resolver.Options.constructor | src/DESTRealm/Optionally/Options.php:72-76 | the container starts from `parseOptions`' values and the positionals |
| Resolver.Options.ResolveAll | src/DESTRealm/Optionally/Options.php:77-148 | the loop over the option map computes `ResolveFrom`, or fails with its error |
| Resolver.Options.ResolveOne | src/DESTRealm/Optionally/Options.php:78-147 | the six passes for one entry compute `ResolveEntry` |
| Resolver.Options.AssignAll | src/DESTRealm/Optionally/Options.php:94-97 | each listed name is assigned the value |
| Resolver.Options.Get | src/DESTRealm/Optionally/Options.php:162-165 | `__get` is `getOption`, with its fallbacks to the option map and the two spellings; the legacy exact lookup is the stored value, null for a key not stored |
| Resolver.Options.Args | src/DESTRealm/Optionally/Options.php:172-177 | `args()` has one entry per positional |
| Resolver.Options.ArgAt | Options.class.php:166-171 | `args($i)` is the positional at `i`, or null exactly when there is none |
| Resolver.NewOptions | src/DESTRealm/Optionally/Options.php:72-155 | the container holds `Resolve`'s values, or construction fails with its error |
| OptionBuilder.GroupedSpec | src/DESTRealm/Optionally/OptionBuilder.php:62-78 | a name has a group exactly when an occurrence is stored under it; its count is the number of those occurrences and its values are theirs, in order, nulls included |
| OptionBuilder.ValuesForPresent | src/DESTRealm/Optionally/OptionBuilder.php:68-70 | a name is grouped exactly when some occurrence's name, without `--`, is that name |
| OptionBuilder.ShortAndLongStaySeparate | src/DESTRealm/Optionally/OptionBuilder.php:80-101 | code after `continue` never runs: `-v` and `--verbose` are two groups |
| OptionBuilder.GroupedPair | src/DESTRealm/Optionally/OptionBuilder.php:70-74 | two occurrences under different keys make two groups of one, in order |
| OptionBuilder.AssignValues | src/DESTRealm/Optionally/OptionBuilder.php:58-105 | the loop computes `Grouped` |
| OptionBuilder.Build | src/DESTRealm/Optionally/OptionBuilder.php:40-56 | `build()` tokenizes with `skip_unknown` set against the records' spec strings and groups the occurrences, or fails with the tokenizer's exception |
| Builder.ModifyTouchesOnly | src/DESTRealm/Optionally.php:234-575 | each modifier leaves every attribute it does not write as it was |
| Builder.FlagRules | src/DESTRealm/Optionally.php:234-249 | boolean sets boolean and optionalValue and clears required; required clears boolean; optional clears boolean; value clears boolean and, with a value, sets defaults and ifMissing and makes it optional, else makes it mandatory |
| Builder.ModifyKeepsConsistent | src/DESTRealm/Optionally.php:451-482 | no modifier makes a boolean option required or value-mandatory |
| Builder.TemplateConsistent | src/DESTRealm/Optionally.php:429-435 | the template is a consistent record |
| Builder.SettingsMayBreakFlags | src/DESTRealm/Optionally.php:437-439 | settings are merged as given, so they can declare an option boolean and required |
| Builder.DeclaredSpec | src/DESTRealm/Optionally.php:429-444 | a new name gets the template; a known name keeps its record, modifiers included, unless settings are given, which replace the record by the template merged with them; other records are kept |
| Builder.AddAliasesAppends | src/DESTRealm/Optionally.php:184-188 | new aliases are listed after the old ones |
| Builder.MapFirstSpec | src/DESTRealm/Optionally.php:190-194 | the first registration of a name wins: mapped names keep their option, new ones map to the current option, nothing else is mapped |
| Builder.DeclaredLinked | src/DESTRealm/Optionally.php:429-444 | `option()` keeps the records well formed and every mapped name leading to a record |
| Builder.ScriptArguments | src/DESTRealm/Optionally.php:144-156 | the kept arguments are the given ones, or the process's, without the first element, in order |
| Builder.Optionally.constructor | src/DESTRealm/Optionally.php:144-156 | the builder starts with the arguments after the script name and no options |
| Builder.Optionally.Option | src/DESTRealm/Optionally.php:429-444 | `option()` selects the name, declares it as `DeclaredSpec` says and maps it to itself |
| Builder.Optionally.Apply | src/DESTRealm/Optionally.php:604-607 | a modifier edits the record of the option named last, and only that one |
| Builder.Optionally.Alias | src/DESTRealm/Optionally.php:180-199 | `alias()` appends to the record and maps the not yet mapped aliases to the option |
| Builder.Optionally.MapNew | src/DESTRealm/Optionally.php:190-194 | the alias loop computes `MapFirst` |
| Builder.Optionally.Argv | src/DESTRealm/Optionally.php:205-224 | `argv()` fails exactly when the tokenizer, run with `skip_unknown` on the records' spec strings, throws |
| ArgvBuilder.FlagRules | src/Optionally.php:513-526 | boolean clears required; required clears boolean; value sets `value` and, for a non-null value, defaults and ifMissing; test stores filter and filterFailure |
| ArgvBuilder.ModifyKeepsExclusive | src/Optionally.php:438-449 | no modifier makes an option both boolean and required |
| ArgvBuilder.AddAliasSpellings | src/Optionally.php:165-181 | `alias(a)` lists `a` and then its underscore and camelCase spellings after the aliases already there |
| ArgvBuilder.AddAliasList | src/Optionally.php:165-176 | the aliases after `alias(a)` are the old ones, `a`, and its spellings |
| ArgvBuilder.AddAliasOnScalar | src/Optionally.php:165-176 | on a number or `true` in `aliases` the append keeps the value (PHP 5 and 7 only warn), and a hyphenated alias's `array_merge` makes the field null |
| ArgvBuilder.AddAliasFirst | src/Optionally.php:165-176 | on a record whose aliases are null or `false`, `alias(a)` starts the list with `a` and its spellings |
| ArgvBuilder.DeclaredNewSpellings | src/Optionally.php:393-414 | a new hyphenated name is declared with its two spellings as its only aliases |
| ArgvBuilder.MagicGet | src/Optionally.php:150-158 | `__get` throws MissingArgvException exactly for a name that is neither a method nor a property |
| ArgvBuilder.HyphenatedNameThrows | src/Optionally.php:150-158 | reading a hyphenated option name from the builder always throws |
| ArgvBuilder.Optionally.constructor | src/Optionally.php:130-141 | the builder keeps the arguments after the script name and has no options |
| ArgvBuilder.Optionally.Option | src/Optionally.php:393-414 | `option()` declares the name and adds its spellings to its aliases |
| ArgvBuilder.Optionally.Apply | src/Optionally.php:555-558 | a modifier edits only the record of the option named last |
| ArgvBuilder.Optionally.Alias | src/Optionally.php:165-181 | `alias()` appends the alias and its spellings to the current record |
| ArgvBuilder.Optionally.Argv | src/Optionally.php:187-257 | `argv()` returns a container of Options.class.php (the file's namespace), reading names by exact key, holding the resolved values and the positionals, or the tokenizer's or container's exception |
| LegacyBuilder.ModifyKeepsExclusive | Optionally.class.php:139-148 | boolean clears required and required clears boolean, so no modifier makes an option both |
| LegacyBuilder.MangleAllSpec | Optionally.class.php:544-547 | a rebuild keeps the options and their order and mangles each record once |
| LegacyBuilder.MangleAll | Optionally.class.php:544-547 | a rebuild keeps the options in their order |
| LegacyBuilder.MangleRecordAliases | Optionally.class.php:448-451 | each rebuild lists a hyphenated option's spellings after its aliases |
| LegacyBuilder.MangledAnswersSpelling | Optionally.class.php:437-452 | after a rebuild the option answers to its underscore spelling |
| LegacyBuilder.SpellingsMappedOnRebuild | Optionally.class.php:544-575 | the spec strings and option map come from the records before that rebuild's spellings: a new spelling is mapped only from the next rebuild on |
| LegacyBuilder.UnansweredNameUnmapped | Optionally.class.php:557-563 | a name no option answers to is not in the option map |
| LegacyBuilder.EmptyValueRejected | Optionally.class.php:493-500 | an option with `value` and without `optionalValue` given an empty value raises REQUIRES_ARGUMENT, and only then |
| LegacyBuilder.UnknownNameKept | Optionally.class.php:473-489 | a name that is neither an option nor a master keeps its raw entry and nothing else changes |
| LegacyBuilder.FalsePassWritesFalse | Optionally.class.php:587-595 | the boolean-false loop writes only `false` and removes nothing |
| LegacyBuilder.AbsentBooleanIsFalse | Optionally.class.php:587-595 | a boolean option whose own name is absent after parsing is `false` afterwards |
| LegacyBuilder.ScriptNameStopsParsing | Optionally.class.php:89-97 | the arguments keep the script name, so the tokenizer sees no options when it comes first |
| LegacyBuilder.AsWrittenAliasReadsFalse | Optionally.class.php:483-489 | as written, an alias of a boolean option given alone leaves both alias and option `false` |
| LegacyBuilder.IntendedAliasReadsTrue | Optionally.class.php:483-489 | corrected, the alias alone sets both to `true` |
| LegacyBuilder.Optionally.constructor | Optionally.class.php:89-97 | the builder keeps the given arguments, or the process's, with an empty cache |
| LegacyBuilder.Optionally.Option | Optionally.class.php:238-251 | `option()` declares the name and leaves the cache alone |
| LegacyBuilder.Optionally.Apply | Optionally.class.php:365-369 | every modifier empties the cache, then edits the record of the option named last |
| LegacyBuilder.Optionally.Alias | Optionally.class.php:104-110 | `alias()` empties the cache and appends the alias |
| LegacyBuilder.Optionally.Prepare | Optionally.class.php:520-599 | a non-empty cache is kept; an empty one is rebuilt as `Prepared` says, and a thrown exception leaves it as it was |
| LegacyBuilder.Optionally.Get | Optionally.class.php:341-357 | `__get` returns the cached value, else rebuilds and returns it, else null |
| LegacyBuilder.Optionally.Args | Optionally.class.php:125-129 | `args()` returns the positionals of the cached parse, rebuilding it first when needed |
| LegacyBuilder.Rebuild | Optionally.class.php:544-598 | the rebuild computes `Prepared` from the records as they were |
| LegacyBuilder.ParseOccurrences | Optionally.class.php:463-514 | `parseOptions`' loop computes `ParseAll` |
| LegacyBuilder.ParseOne | Optionally.class.php:469-510 | one pass of that loop computes `ParseStep` |
| LegacyBuilder.FalseBooleans | Optionally.class.php:587-595 | the boolean-false loop computes `FalsePass` |
| Strings.NormalizeLineEndings | src/DESTRealm/Optionally/String.php:74-81 | the result holds no carriage return, and text without one is returned unchanged |
| Strings.NormalizeIdempotent | src/DESTRealm/Optionally/String.php:74-81 | normalising twice is normalising once |
| Strings.NormalizeExample | src/DESTRealm/Optionally/String.php:74-81 | `\r\n` and a lone `\r` both become `\n` |
| Strings.ReplaceIndent | src/DESTRealm/Optionally/String.php:94-105 | false exactly when the placeholder does not occur or the replacement is longer than it |
| Strings.ReplaceIndentOverlay | src/DESTRealm/Optionally/String.php:101-104 | at the start of the text the replacement overlays the placeholder: same length, the replacement first, the rest kept |
| Strings.ReplaceIndentLength | src/DESTRealm/Optionally/String.php:101-104 | further in, the text before the placeholder appears twice and the result is longer by that offset |
| Strings.ReplaceIndentExample | src/DESTRealm/Optionally/String.php:94-105 | `-x` laid over two spaces of `  a` gives `-xa` |
| Strings.IndentByLine | src/DESTRealm/Optionally/String.php:17-27 | the result has the input's lines, in order, each prefixed by the spaces when it starts with a non-blank character and kept otherwise |
| Strings.IndentZero | src/DESTRealm/Optionally/String.php:17-27 | indenting by zero changes nothing |
| Strings.BreakAt | src/DESTRealm/Optionally/String.php:135-146 | the break point is past the start of the chunk, so the position strictly grows |
| Strings.FirstIn | src/DESTRealm/Optionally/String.php:129 | `strpos` within the chunk: the first position of the chunk holding the character, or none when none does |
| Strings.LastIn | src/DESTRealm/Optionally/String.php:135-136 | `strrpos` within the chunk: the last position of the chunk holding the character, or none when none does |
| Strings.IndentLines | src/DESTRealm/Optionally/String.php:17-27 | each line is indented on its own |
| Strings.BreakIsLatest | src/DESTRealm/Optionally/String.php:135-146 | no later space or hyphen break was possible in the chunk |
| Strings.WrapLine | src/DESTRealm/Optionally/String.php:129-148 | each step moves past the position, within the text |
| Strings.WrapLineFits | src/DESTRealm/Optionally/String.php:129-148 | each step emits a line of at most `columns` characters without a line feed |
| Strings.WrapLineConsumes | src/DESTRealm/Optionally/String.php:129-148 | each step consumes exactly its line and, after it, nothing, its line feed or the space it broke at |
| Strings.WrapFits | src/DESTRealm/Optionally/String.php:120-149 | no line of the result is longer than `columns` |
| Strings.WrapKeepsText | src/DESTRealm/Optionally/String.php:135-148 | with at least one column the result is the text with line feeds inserted, each possibly in place of one space |
| Strings.WrapUnbrokenWord | src/DESTRealm/Optionally/String.php:135-146 | a run without space or hyphen is broken one character per line until the rest fits |
| Strings.WrapZeroColumns | src/DESTRealm/Optionally/String.php:120-149 | with no columns each step emits an empty line and drops one character |
| Strings.WrappedSpec | src/DESTRealm/Optionally/String.php:113-152 | no line is longer than `columns`; text that fits comes back normalised; otherwise only line feeds are inserted |
| Strings.Wrap | src/DESTRealm/Optionally/String.php:113-152 | the `while` loop terminates and returns `Wrapped` |
| Help.ToOption | src/DESTRealm/Optionally/Help.php:488-521 | the rendering's length is the dashes, the name and the argument with its brackets; an empty argument name renders the name alone |
| Help.ToOptionShape | src/DESTRealm/Optionally/Help.php:488-521 | the rendering starts with the dashes and the name; a non-empty argument follows, closed by `]` when optional and `>` otherwise |
| Help.NullArgOption | src/DESTRealm/Optionally/Help.php:285-289 | a missing entry's null argument still brings empty angle brackets |
| Help.ShortOptionExamples | src/DESTRealm/Optionally/Help.php:488-521 | `-c <file>` and `-c [file]` |
| Help.LongOptionExamples | src/DESTRealm/Optionally/Help.php:488-521 | `--config[=][file]`, `--save[=]<file>` and `--debug` |
| Help.ValueKinds | src/DESTRealm/Optionally/Help.php:335-357 | an option never takes both an optional and a required value; undeclared and boolean options take neither; a declared non-boolean option with `value` takes exactly one |
| Help.Head | src/DESTRealm/Optionally/Help.php:488-521 | `-x` for a one-character name, `--name` otherwise: one or two dashes before the name |
| Help.KeyCandidates | src/DESTRealm/Optionally/Help.php:285-317 | the renderings weighed for a key start with the key's own; as written the aliases are read under the rendering, as intended under the key |
| Help.ParseUsage | src/DESTRealm/Optionally/Help.php:470-473 | the usage text ends with one line feed |
| Help.ParseUsageSplice | src/DESTRealm/Optionally/Help.php:470-473 | text before the first `%` is kept and a `%script` there becomes the script name |
| Help.ParseUsagePlain | src/DESTRealm/Optionally/Help.php:470-473 | usage without `%` is printed as it is on its own line |
| Help.ParseUsageTwice | src/DESTRealm/Optionally/Help.php:470-473 | two placeholders name the script twice |
| Help.WidestFromBound | src/DESTRealm/Optionally/Help.php:291-314 | the running maximum never passes the cutoff |
| Help.WidestFromSpec | src/DESTRealm/Optionally/Help.php:282-319 | the running maximum is at least every fitting rendering and is its start or one of them |
| Help.MaxLengthSpec | src/DESTRealm/Optionally/Help.php:280-327 | the width is the widest rendering within the cutoff, or `indentation` when none fits |
| Help.AliasesOnlyUnderRendering | src/DESTRealm/Optionally/Help.php:285-317 | as written, aliases count only when an option is stored under the key's rendered form |
| Help.AsWrittenWidthIgnoresAliases | src/DESTRealm/Optionally/Help.php:285-317 | as written, option `m` with alias `verbose` gets the width of `-m`; as intended, that of `--verbose` |
| Help.IntendedWidthCoversAliases | src/DESTRealm/Optionally/Help.php:280-327 | as intended, the width is at least that of every alias that fits the cutoff, rendered with its option's argument |
| Help.HelpLineText | src/DESTRealm/Optionally/Help.php:381-397 | `helpLine` consumes exactly the first description line |
| Help.HelpLineOverlay | src/DESTRealm/Optionally/Help.php:384-392 | a rendering within the cutoff takes the place of the description line's leading spaces |
| Help.HelpLineNameTooWide | src/DESTRealm/Optionally/Help.php:384-392 | a rendering within the cutoff but wider than the indentation is dropped |
| Help.HelpLineOwnLine | src/DESTRealm/Optionally/Help.php:393-395 | a rendering beyond the cutoff gets its own line, then the description line |
| Help.AliasLineOverlay | src/DESTRealm/Optionally/Help.php:369-391 | a non-empty alias that fits is laid, indented by `indentAliases`, over the leading spaces of the next description line, which is used up |
| Help.KeyLineOverlay | src/DESTRealm/Optionally/Help.php:369-391 | with no alias (`""` or `"0"`) the key's rendering is laid over the start of the description line, not indented |
| Help.AliasLinesExtend | src/DESTRealm/Optionally/Help.php:217-228 | the alias lines only append to the buffer |
| Help.CloseBlockEndsLine | src/DESTRealm/Optionally/Help.php:230-236 | a block ends with a line feed |
| Help.CloseBlockPrefix | src/DESTRealm/Optionally/Help.php:230-236 | closing a block only appends |
| Help.KeyBlockExtends | src/DESTRealm/Optionally/Help.php:194-213 | a block extends the buffer, after a separating line feed, starting with the key's line |
| Help.KeyBlockEndsLine | src/DESTRealm/Optionally/Help.php:192-237 | a block ends a line |
| Help.KeyBlockBlankLine | src/DESTRealm/Optionally/Help.php:194-196 | a block after a finished line starts with a blank line |
| Help.BlocksExtend | src/DESTRealm/Optionally/Help.php:182-238 | the blocks only append to the usage line |
| Help.BlocksEndLine | src/DESTRealm/Optionally/Help.php:192-238 | once there is a block, the text ends a line |
| Help.HelpOrder | src/DESTRealm/Optionally/Help.php:178-179 | the options are listed in ascending string order, each once |
| Help.SortedKeysListed | src/DESTRealm/Optionally/Help.php:178-184 | every name visited has an entry |
| Help.Help.constructor | src/DESTRealm/Optionally/Help.php:84-91 | an empty script name falls back on the process's first argument; the layout defaults are set |
| Help.Help.SetAliasIndentation | src/DESTRealm/Optionally/Help.php:98-101 | sets `indentAliases` |
| Help.Help.SetMaxColumns | src/DESTRealm/Optionally/Help.php:107-110 | sets `columns` |
| Help.Help.SetOptionBuffer | src/DESTRealm/Optionally/Help.php:117-120 | sets `buffer` |
| Help.Help.SetOptionCutoff | src/DESTRealm/Optionally/Help.php:129-132 | sets `cutoff` |
| Help.Help.SetOptions | src/DESTRealm/Optionally/Help.php:250-253 | sets `options` |
| Help.Help.SetUsage | src/DESTRealm/Optionally/Help.php:267-270 | sets `usage` |
| Help.Help.AddDescription | src/DESTRealm/Optionally/Help.php:142-151 | a fresh entry replaces any earlier one for the option |
| Help.Help.CalculateMaxLength | src/DESTRealm/Optionally/Help.php:280-327 | returns `MaxLength` and sets the buffer to 0 when no rendering fits |
| Help.Help.KeyWidest | src/DESTRealm/Optionally/Help.php:285-317 | the loop body for one key computes the running maximum over its renderings |
| Help.Help.HelpLine | src/DESTRealm/Optionally/Help.php:369-398 | `helpLine` computes `OptionLine` |
| Help.Help.LayLine | src/DESTRealm/Optionally/Help.php:381-397 | the layout step computes `HelpLineText` |
| Help.Help.AppendBlock | src/DESTRealm/Optionally/Help.php:194-237 | one block iteration computes `KeyBlock` |
| Help.Help.FirstLine | src/DESTRealm/Optionally/Help.php:198-213 | the description lines and the key's line |
| Help.Help.Description | src/DESTRealm/Optionally/Help.php:203-211 | the description is wrapped at the width left of the columns, indented and split |
| Help.Help.AliasLoop | src/DESTRealm/Optionally/Help.php:217-228 | the alias loop computes `AliasLines` |
| Help.Help.Close | src/DESTRealm/Optionally/Help.php:230-236 | the leftover description lines and the closing line feed |
| Help.Help.Help | src/DESTRealm/Optionally/Help.php:175-240 | the usage line, then every entry's blocks in ascending order of names, with the width and buffer as `calculateMaxLength` sets them |
| Help.Help.Prepare | src/DESTRealm/Optionally/Help.php:178-190 | the descriptions are parsed and the width computed |
| Help.Help.DescribeAll | src/DESTRealm/Optionally/Help.php:184-186 | each entry's description is parsed in key order |
| Help.Help.SetWidth | src/DESTRealm/Optionally/Help.php:190 | `maxLength` and `buffer` are set as `calculateMaxLength` computes them |
| Help.Help.AppendBlocks | src/DESTRealm/Optionally/Help.php:192-238 | the block loop computes `Blocks` |

## Left out

- The process and the environment are parameters. `$_SERVER['argv']` is `serverArgv`. The script name is a constructor argument. `readPHPArgv` (src/DESTRealm/Optionally/Getopt/Getopt.php:383-398) is not part of this model.
- PEAR `Console_Getopt` is not part of this model. `src/Optionally.php` and `Optionally.class.php` load it; the model runs the repository's own tokenizer in its place.
- Callbacks (`callback()`, `fireCallback`) are not modelled: they call user code with the live builder. The filter of `test`/`filter` is the function parameter `apply`.
- `String::normalize` and `Help::parseDescription` rest on PCRE character classes. They are the function parameters `normalize` and `describe` of `Help.Help.Help`.
- Exception messages are not modelled. Errors carry their kind, the option involved, and the tokenizer's code.
- An alias or option name that is not a string, and `in_array`'s loose comparison, are not modelled. Every name is a string compared exactly.
- `method_exists` ignores case in PHP. `ArgvBuilder.MagicGet` compares member names exactly.
- `Options.php` reads an undefined `$optionMap` in `parseOptions` (line 235). The model passes the option map in, as `Options.class.php` does.
- `Optionally.class.php`'s `requiredIfNull` overwrites its reference with itself. `test` and `argc` have empty bodies. None of the three is modelled.
- The namespaced builder's `__get` has its body commented out (src/DESTRealm/Optionally.php:165-173), so it always returns null. It is not modelled.
- `describe()` and `usage()` hand their text to the `Help` object (src/DESTRealm/Optionally.php:316-324, 545-550). The builders are not linked to a `Help.Help`.
- `OptionBuilder::build` ends with `print_r`. `buildOptions` returns nothing. `evaluateOptions` is empty. `Builder.Optionally.Argv` returns only whether the tokenizer failed.
- Countable and array final values are not modelled. No source implements them beyond `assignValues`' grouping.
- `Help::addExamples` stores nothing and is not modelled. The unused `option` and `aliases` slots of a help entry are not modelled either.
- The legacy constructor is not modelled for a string argument: `Optionally.class.php:95` keeps whatever it is given, and the model takes a list.
- `OptionallyHelp.class.php` and `String.class.php` are not part of this model.
- A modifier called before any `option()` works on the record under the empty name. PHP creates that record as null; the model starts it from an empty record.
- `Help.Help.Help` requires `cutoff + buffer <= columns + 1` and `indentation <= columns + 1`. This keeps the wrap width `columns - maxLength - buffer + 1` from going negative, which `wrap` does not handle.
- `Strings.Wrap` works on positions in the text, not on the `substr` copies, and its chunk end is capped at the text's end.
- `Resolver.Options.Args`: its ensures states only the length. The contents are `Resolver.Options.ArgAt`'s contract.
- Getopt.ShortLetter, Getopt.ParseShort, Getopt.MatchLong, Getopt.ParseLong and Getopt.WalkStep state only monotonicity in their own ensures. Their behaviour is stated by the `GetoptProperties` lemmas: flags (`FlagsThen`, `ClusterOfFlags`), values of short options (`ShortInlineValue`, `RequiredShortTakesNextToken`, `OptionalShortValue`), unknown letters and names, long values (`RequiredLongValue`, `OptionalLongNeedsSkip`, `FlagWithInlineValue`), ambiguity (`AmbiguousIff`) and the kinds of iteration (`WalkStepKinds`, `WalkStepEnds`, `WalkStepLong`, `WalkStepShort`).
- Tokenize: its own ensures states only the empty-argument case. Where the positionals start, and that no option is recorded after them, is `GetoptProperties.TokenizePositionalTail`; that every option is declared is `GetoptProperties.TokenizeDeclared`.
- Strings are sequences of characters, where PHP counts and indexes bytes. A one-character non-ASCII name is a long option in PHP (`strlen` is more than 1) but a short one here, a cluster such as `-é` is split into its bytes by PHP, and widths in `wrap`, `replaceIndent` and the help layout differ for multibyte text.
- ArgvBuilder.AddAlias: when settings leave a non-empty string or a callable in `aliases`, PHP raises an Error on `[]` (from PHP 7.1 an empty string too); the model leaves the record unchanged, and a hyphenated alias then turns the field into null through `array_merge`. A number or `true` is modelled: PHP 5 and 7 warn and keep the value, and `array_merge` then gives null (`ArgvBuilder.AddAliasOnScalar`).
- ArgvBuilder.Optionally.Alias: inherits that gap from `ArgvBuilder.AddAlias`: the Error PHP raises for a string or a callable in `aliases` is not modelled.
- ArgvBuilder.Optionally.Argv: `src/Optionally.php` is in the namespace `org\destrealm\utilities\optionally`, so its `new Options` is the container of `Options.class.php` (exact-key `__get`), and the model resolves with `Exact`. The filter's `$this->$option` is modelled as `__get`; for an option named after a property of the container (`_options`, `_args`, `_help`) PHP reads that property instead, which the model does not capture. The same holds for `Options.php`'s properties in `Resolver`.
- Builder.AddAliases: when settings leave a non-empty string or a callable in `aliases`, PHP raises an Error on `[]` (from PHP 7.1 an empty string too); the model leaves the record unchanged. A number or `true` is modelled: PHP 5 and 7 warn and keep the value. `array_merge` on a non-array gives null, as in PHP 5 and 7 after a warning.
- `Help.ParseUsage`: its ensures states only the final line feed. The substitution is stated by `Help.ParseUsageSplice` and `Help.ParseUsageTwice`.
- `Builder.Optionally.Argv`: its ensures states only when it fails. The grouping is `OptionBuilder.Build`'s contract.
- Php.Sort: orders strings by `strcmp`. PHP's default `sort` compares two numeric strings as numbers, which the model does not capture.

## Findings

| source | as written | input that shows it | evidently intended | confidence | as-written member | corrected member |
|---|---|---|---|---|---|---|
| src/DESTRealm/Optionally/Getopt/Getopt.php:217-222 | an `::` short option at the end of its token peeks at the next token with `each()`. If that token is option-like, `prev()` steps back. When the peeked token was the last one, the pointer is already past the end and `prev()` cannot move it, so that token is never read | short spec `a::b`, arguments `-a -b`: the result is `a` alone, and `-b` is lost | the option-like token is read next, so `-a -b` records `a` and `b` | not executed | GetoptProperties.AsWrittenDropsFinalOption | GetoptProperties.IntendedKeepsFinalOption |
| Optionally.class.php:483-489 | an occurrence name that is not an option key is looked up with `in_array` among the option map's values (the masters), not its keys. An alias is never found, so its settings are skipped. The boolean-false pass then sets the master to `false` | boolean option `m` with the one-letter alias `a`, arguments `-a` (the tokenizer records the occurrence `a`): both `a` and `m` read `false` | the alias is mapped to its master (`$optionMap[$opt]`), so both read `true` | not executed | LegacyBuilder.AsWrittenAliasReadsFalse | LegacyBuilder.IntendedAliasReadsTrue |
| src/DESTRealm/Optionally/Help.php:285-305 | `calculateMaxLength` overwrites `$option` with its rendering before reading `$this->options[$option]['aliases']` and `$this->help[$option]`, so the aliases are found only when some option is named like the rendering (`-m`, `--name`) and the width otherwise ignores them, although the comment at line 188 says the width includes aliases | option `m` with alias `verbose`, no argument, cutoff 20: the width is 2 (`-m`), not 9 (`--verbose`) | the aliases and entry are read under the key, so every alias within the cutoff counts | not executed | Help.AsWrittenWidthIgnoresAliases | Help.IntendedWidthCoversAliases |
