/** The argument tokenizer: a modified PEAR Console_Getopt. A cursor walks
    the argument array; short options may be clustered (`-abc`), long options
    are matched by their exact name, and the walk stops at the first
    positional argument, at a bare `-`, or after `--`.

    Short options are declared in a spec string (`x` a flag, `x:` a required
    value, `x::` an optional value) and long options in a list (`name`,
    `name=`, `name==`). The spec functions below follow the PHP code branch
    for branch; the `Scanner` class and `DoGetopt` are the imperative form,
    proved equal to them. */
module Getopt {
  import opened Php

  const UNRECOGNIZED_OPTION := 1
  const REQUIRES_ARGUMENT := 2
  const AMBIGUOUS_OPTION := 4
  const ARGUMENT_NOT_ALLOWED := 8

  /** A GetoptException: its code and its message. */
  datatype GetoptError = GetoptError(code: int, message: string)

  function Unrecognized(opt: string): GetoptError {
    GetoptError(UNRECOGNIZED_OPTION, "Unrecognized option: " + opt)
  }

  function RequiresArgument(opt: string): GetoptError {
    GetoptError(REQUIRES_ARGUMENT, "Option requires argument: " + opt)
  }

  function Ambiguous(opt: string): GetoptError {
    GetoptError(AMBIGUOUS_OPTION, "Ambiguous option: " + opt)
  }

  function NotAllowed(optArg: string): GetoptError {
    GetoptError(ARGUMENT_NOT_ALLOWED, "Argument not allowed: " + optArg)
  }

  /** The one exception thrown without a code. */
  function MissingArgument(opt: string): GetoptError {
    GetoptError(0, "Getopt: option requires an argument --" + opt)
  }

  /** One recorded option: `array($name, $value)`. Short names are the letter
      itself, long names carry their leading `--`. */
  datatype Occurrence = Occurrence(name: string, value: Value)

  /** The two lists `doGetopt` returns. */
  datatype Parsed = Parsed(opts: seq<Occurrence>, nonOpts: seq<string>)

  /** What `prev($args)` does after an optional-value short option peeked at an
      option-like token (see Findings in the README): `AsWritten` is PHP's
      array pointer, which cannot step back once it has run past the last
      element; `Intended` always steps back onto the peeked token. */
  datatype Revision = AsWritten | Intended

  datatype Arity = NoValue | RequiredValue | OptionalValue

  /** The state shared by reference between `doGetopt` and its helpers: the
      options recorded so far and the position of the array pointer of
      `$args` (`|args|` once it has run past the end). */
  datatype Scan = Scan(opts: seq<Occurrence>, cursor: nat)

  // ---------------------------------------------------------------------
  // Recognising option-like tokens
  // ---------------------------------------------------------------------

  predicate IsAsciiLetter(c: char) {
    'a' <= c <= 'z' || 'A' <= c <= 'Z'
  }

  /** `_isShortOpt`: a dash and one letter. */
  predicate IsShortOpt(t: string) {
    |t| == 2 && t[0] == '-' && IsAsciiLetter(t[1])
  }

  /** `preg_match('/[a-zA-Z]+$/', $s)`: the text ends in a letter, or in a letter
      followed by a final newline (PCRE's `$` also matches before one). */
  predicate EndsWithLetter(s: string) {
    || (|s| >= 1 && IsAsciiLetter(s[|s| - 1]))
    || (|s| >= 2 && s[|s| - 1] == '\n' && IsAsciiLetter(s[|s| - 2]))
  }

  /** `_isLongOpt`: two dashes and a name that ends in a letter. */
  predicate IsLongOpt(t: string) {
    |t| > 2 && t[0] == '-' && t[1] == '-' && EndsWithLetter(t[2..])
  }

  predicate OptionLike(t: string) {
    IsShortOpt(t) || IsLongOpt(t)
  }

  // ---------------------------------------------------------------------
  // Reading the declarations
  // ---------------------------------------------------------------------

  /** What follows a short letter in its spec: `:` required, `::` optional. */
  function SuffixArity(after: string): Arity {
    if |after| >= 1 && after[0] == ':' then
      if |after| >= 2 && after[1] == ':' then OptionalValue else RequiredValue
    else NoValue
  }

  /** `strstr($short, $c)`, read at the first occurrence of `c`; `:` itself is never
      an option. None means the letter is unrecognized. */
  function ShortArity(short: string, c: char): Option<Arity> {
    if c == ':' then None
    else
      match FirstIndex(short, c)
      case None => None
      case Some(k) => Some(SuffixArity(short[k + 1..]))
  }

  /** `str_replace('=', '', $long)`: the name a long declaration is matched by. */
  function LongName(long: string): string {
    Replace(long, "=", "")
  }

  /** `substr($s, -2)` */
  function LastTwo(s: string): string {
    if |s| >= 2 then s[|s| - 2..] else s
  }

  /** A trailing `=` requires a value, a trailing `==` makes it optional. */
  function LongArity(long: string): Arity {
    if |long| > 0 && long[|long| - 1] == '=' then
      if LastTwo(long) != "==" then RequiredValue else OptionalValue
    else NoValue
  }

  /** `substr($s, 0, $n)` */
  function Prefix(s: string, n: nat): string {
    if n <= |s| then s[..n] else s
  }

  /** `substr($s, $n)`, with nothing left past the end. */
  function Suffix(s: string, n: nat): string {
    if n <= |s| then s[n..] else ""
  }

  /** `explode('=', $arg, 2)`: the name and, when there is an `=`, the inline value. */
  function SplitAtEq(arg: string): (r: (string, Option<string>))
    ensures '=' !in r.0
    ensures r.1.None? ==> r.0 == arg
    ensures r.1.Some? ==> arg == r.0 + "=" + r.1.value
  {
    match FirstIndex(arg, '=')
    case None => (arg, None)
    case Some(k) =>
      assert arg == arg[..k] + "=" + arg[k + 1..];
      (arg[..k], Some(arg[k + 1..]))
  }

  /** The first declaration at or after `from` whose name is exactly `opt`. */
  function FindLong(longs: seq<string>, opt: string, from: nat): (r: Option<nat>)
    ensures r.Some? ==>
      from <= r.value < |longs| && LongName(longs[r.value]) == opt
      && forall j :: from <= j < r.value ==> LongName(longs[j]) != opt
    ensures r.None? ==> forall j :: from <= j < |longs| ==> LongName(longs[j]) != opt
    decreases |longs| - from
  {
    if from >= |longs| then None
    else if LongName(longs[from]) == opt then Some(from)
    else FindLong(longs, opt, from + 1)
  }

  function OptValue(v: Option<string>): Value {
    match v
    case None => Null
    case Some(s) => Str(s)
  }

  /** `current($args)`: the token under the pointer, or false past the end. */
  function Current(args: seq<string>, cursor: nat): Value {
    if cursor < |args| then Str(args[cursor]) else Bool(false)
  }

  /** The pointer after `each()` read the token at `cur` and `prev()` stepped back. */
  function Rewind(rev: Revision, cur: nat, n: nat): nat {
    match rev
    case AsWritten => if cur + 1 < n then cur else n
    case Intended => cur
  }

  // ---------------------------------------------------------------------
  // The tokenizer, as functions
  // ---------------------------------------------------------------------

  /** How the body of `_parseShortOption`'s loop ends for one letter: on to the
      next letter (the loop also ends there once a value was taken from the next
      token, as no letter is left), or out of the loop by `break` or a throw. */
  datatype LetterStep = NextLetter(s: Scan) | Finish(r: Result<Scan, GetoptError>)

  /** The body of `_parseShortOption`'s loop for the letter at index `i`. */
  function ShortLetter(rev: Revision, arg: string, i: nat, short: string, skip: bool,
                       args: seq<string>, s: Scan): (r: LetterStep)
    requires i < |arg| && s.cursor <= |args|
    ensures r.NextLetter? ==> s.cursor <= r.s.cursor <= |args| && s.opts <= r.s.opts
    ensures r.Finish? && r.r.Ok? ==> s.cursor <= r.r.value.cursor <= |args| && s.opts <= r.r.value.opts
  {
    var opt := [arg[i]];
    match ShortArity(short, arg[i])
    case None => Finish(if skip then Ok(s) else Err(Unrecognized(opt)))
    case Some(NoValue) => NextLetter(Scan(s.opts + [Occurrence(opt, Null)], s.cursor))
    case Some(OptionalValue) =>
      if i + 1 < |arg| then Finish(Ok(Scan(s.opts + [Occurrence(opt, Str(arg[i + 1..]))], s.cursor)))
      else if s.cursor < |args| then
        if OptionLike(args[s.cursor]) then
          Finish(Ok(Scan(s.opts + [Occurrence(opt, Null)], Rewind(rev, s.cursor, |args|))))
        else NextLetter(Scan(s.opts + [Occurrence(opt, Str(args[s.cursor]))], s.cursor + 1))
      else NextLetter(Scan(s.opts + [Occurrence(opt, Null)], s.cursor))
    case Some(RequiredValue) =>
      if i + 1 < |arg| then Finish(Ok(Scan(s.opts + [Occurrence(opt, Str(arg[i + 1..]))], s.cursor)))
      else if s.cursor < |args| then
        if OptionLike(args[s.cursor]) then Finish(Err(RequiresArgument(opt)))
        else NextLetter(Scan(s.opts + [Occurrence(opt, Str(args[s.cursor]))], s.cursor + 1))
      else Finish(Err(RequiresArgument(opt)))
  }

  /** `_parseShortOption` from the letter at index `i` of a cluster. */
  function ParseShort(rev: Revision, arg: string, i: nat, short: string, skip: bool,
                      args: seq<string>, s: Scan): (r: Result<Scan, GetoptError>)
    requires i <= |arg| && s.cursor <= |args|
    ensures r.Ok? ==> s.cursor <= r.value.cursor <= |args| && s.opts <= r.value.opts
    decreases |arg| - i
  {
    if i == |arg| then Ok(s)
    else
      match ShortLetter(rev, arg, i, short, skip, args, s)
      case Finish(r) => r
      case NextLetter(s1) => ParseShort(rev, arg, i + 1, short, skip, args, s1)
  }

  /** How the body of `_parseLongOption`'s loop ends for the declaration it matched:
      `return` after recording, `break` after recording, or a throw. */
  datatype LongStep = Recorded(s: Scan) | Break(s: Scan) | Failed(e: GetoptError)

  /** The exact-match declaration is value-taking and the next declaration in sorted
      order continues `opt` with something other than `=`. */
  predicate IsAmbiguous(opt: string, longs: seq<string>, i: nat)
    requires i < |longs|
  {
    var nextRest := if i + 1 < |longs| then Suffix(longs[i + 1], |opt|) else "";
    && Suffix(longs[i], |opt|) != ""
    && !(|opt| > 0 && opt[0] == '=')
    && i + 1 < |longs|
    && opt == Prefix(longs[i + 1], |opt|)
    && nextRest != ""
    && nextRest[0] != '='
  }

  function MatchLong(opt: string, optArg: Option<string>, longs: seq<string>, i: nat,
                     args: seq<string>, s: Scan): (r: LongStep)
    requires i < |longs| && s.cursor <= |args|
    ensures !r.Failed? ==> s.cursor <= r.s.cursor <= |args| && |r.s.opts| == |s.opts| + 1 && r.s.opts[..|s.opts|] == s.opts
  {
    var name := "--" + opt;
    if IsAmbiguous(opt, longs, i) then Failed(Ambiguous(opt))
    else
      match LongArity(longs[i])
      case RequiredValue =>
        var inline := optArg.Some? && optArg.value != "";
        if !inline && s.cursor >= |args| then Failed(MissingArgument(opt))
        else
          var value := if inline then optArg.value else args[s.cursor];
          var cursor := if inline then s.cursor else s.cursor + 1;
          if OptionLike(value) then Failed(RequiresArgument(opt))
          else Recorded(Scan(s.opts + [Occurrence(name, Str(value))], cursor))
      case OptionalValue =>
        if s.cursor < |args| && OptionLike(args[s.cursor]) then
          Break(Scan(s.opts + [Occurrence(name, OptValue(optArg))], s.cursor))
        else if optArg.None? then
          Break(Scan(s.opts + [Occurrence(name, Current(args, s.cursor))],
                     if s.cursor < |args| then s.cursor + 1 else s.cursor))
        else Break(Scan(s.opts + [Occurrence(name, Str(optArg.value))], s.cursor))
      case NoValue =>
        if optArg.Some? && Truthy(Str(optArg.value)) then Failed(NotAllowed(optArg.value))
        else Recorded(Scan(s.opts + [Occurrence(name, OptValue(optArg))], s.cursor))
  }

  /** `_parseLongOption` for the token with its leading `--` removed. A `break`
      out of the loop reaches the same end as finding no declaration. */
  function ParseLong(arg: string, longs: seq<string>, skip: bool, args: seq<string>, s: Scan)
    : (r: Result<Scan, GetoptError>)
    requires s.cursor <= |args|
    ensures r.Ok? ==> s.cursor <= r.value.cursor <= |args| && s.opts <= r.value.opts
  {
    var (opt, optArg) := SplitAtEq(arg);
    var unmatched := if skip then Ok(s) else Err(Unrecognized(opt));
    match FindLong(longs, opt, 0)
    case None => unmatched
    case Some(i) =>
      match MatchLong(opt, optArg, longs, i, args, s)
      case Recorded(s1) => Ok(s1)
      case Break(s1) => if skip then Ok(s1) else Err(Unrecognized(opt))
      case Failed(e) => Err(e)
  }

  /** A token that starts the positional arguments. */
  predicate StartsPositionals(arg: string) {
    arg == "" || arg[0] != '-' || arg == "-"
  }

  /** The outcome of one iteration of `doGetopt`'s loop. */
  datatype Step = Continue(s: Scan) | Stop(r: Result<Parsed, GetoptError>)

  /** One iteration of `doGetopt`'s loop, for the token under the pointer. */
  function WalkStep(rev: Revision, args: seq<string>, short: string, longs: seq<string>, skip: bool, s: Scan)
    : (r: Step)
    requires s.cursor < |args|
    ensures r.Continue? ==> s.cursor < r.s.cursor <= |args|
  {
    var i := s.cursor;
    var arg := args[i];
    var next := Scan(s.opts, i + 1);
    if arg == "--" then Stop(Ok(Parsed(s.opts, args[i + 1..])))
    else if arg == "" || arg[0] != '-' then Stop(Ok(Parsed(s.opts, args[i..])))
    else if |arg| > 1 && arg[1] == '-' then
      match ParseLong(arg[2..], longs, skip, args, next)
      case Err(e) => Stop(Err(e))
      case Ok(s1) => Continue(s1)
    else if arg == "-" then Stop(Ok(Parsed(s.opts, args[i..])))
    else
      match ParseShort(rev, arg[1..], 0, short, skip, args, next)
      case Err(e) => Stop(Err(e))
      case Ok(s1) => Continue(s1)
  }

  /** A step on `--` or on a token that starts the positional arguments stops
      the loop with the options so far. */
  lemma WalkStepEnds(rev: Revision, args: seq<string>, short: string,
                     longs: seq<string>, skip: bool, s: Scan)
    requires s.cursor < |args|
    ensures args[s.cursor] == "--" ==>
      WalkStep(rev, args, short, longs, skip, s) == Stop(Ok(Parsed(s.opts, args[s.cursor + 1..])))
    ensures args[s.cursor] != "--" && StartsPositionals(args[s.cursor]) ==>
      WalkStep(rev, args, short, longs, skip, s) == Stop(Ok(Parsed(s.opts, args[s.cursor..])))
  {
  }

  /** A step on a `--` argument parses a long option. */
  lemma WalkStepLong(rev: Revision, args: seq<string>, short: string,
                     longs: seq<string>, skip: bool, s: Scan)
    requires s.cursor < |args|
    requires var arg := args[s.cursor]; arg != "--" && |arg| > 1 && arg[0] == '-' && arg[1] == '-'
    ensures var r := ParseLong(args[s.cursor][2..], longs, skip, args, Scan(s.opts, s.cursor + 1));
      WalkStep(rev, args, short, longs, skip, s) == if r.Err? then Stop(Err(r.error)) else Continue(r.value)
  {
  }

  /** A step on a `-` cluster parses its letters from the first. */
  lemma WalkStepShort(rev: Revision, args: seq<string>, short: string,
                      longs: seq<string>, skip: bool, s: Scan)
    requires s.cursor < |args|
    requires var arg := args[s.cursor]; |arg| > 1 && arg[0] == '-' && arg[1] != '-'
    ensures var r := ParseShort(rev, args[s.cursor][1..], 0, short, skip, args, Scan(s.opts, s.cursor + 1));
      WalkStep(rev, args, short, longs, skip, s) == if r.Err? then Stop(Err(r.error)) else Continue(r.value)
  {
  }

  /** The `while (each($args))` loop of `doGetopt`, from the pointer in `s`. */
  function Walk(rev: Revision, args: seq<string>, short: string, longs: seq<string>, skip: bool, s: Scan)
    : (r: Result<Parsed, GetoptError>)
    requires s.cursor <= |args|
    decreases |args| - s.cursor
  {
    if s.cursor == |args| then Ok(Parsed(s.opts, []))
    else
      match WalkStep(rev, args, short, longs, skip, s)
      case Stop(r) => r
      case Continue(s1) => Walk(rev, args, short, longs, skip, s1)
  }

  /** `doGetopt`: the long declarations are sorted, and version 1 first drops a
      leading script name (a non-empty first token not starting with `-`). */
  function Tokenize(rev: Revision, version: int, args: seq<string>, short: string,
                    longs: seq<string>, skip: bool): (r: Result<Parsed, GetoptError>)
    ensures args == [] ==> r == Ok(Parsed([], []))
  {
    if args == [] then Ok(Parsed([], []))
    else
      var sorted := if longs != [] then Sort(longs) else longs;
      Walk(rev, ScriptArgs(version, args), short, sorted, skip, Scan([], 0))
  }

  /** The arguments the walk sees: version 1 drops a non-empty first token that
      does not start with `-`, taking it for the script name. */
  function ScriptArgs(version: int, args: seq<string>): seq<string> {
    if version < 2 && args != [] && args[0] != "" && args[0][0] != '-' then args[1..] else args
  }

  // ---------------------------------------------------------------------
  // The tokenizer, as the PHP code runs it
  // ---------------------------------------------------------------------

  /** The argument array with its internal pointer, and the options recorded so
      far; both are passed by reference between the parsing routines. */
  class Scanner {
    var args: seq<string>
    var pos: nat
    var opts: seq<Occurrence>

    ghost predicate Valid()
      reads this
    {
      pos <= |args|
    }

    function State(): Scan
      reads this
    {
      Scan(opts, pos)
    }

    constructor(args: seq<string>)
      ensures this.args == args && pos == 0 && opts == [] && Valid()
    {
      this.args := args;
      pos := 0;
      opts := [];
    }

    /** `each($args)`: the token under the pointer, and the pointer moves on. */
    method Each() returns (t: Option<string>)
      requires Valid()
      modifies this
      ensures Valid() && args == old(args) && opts == old(opts)
      ensures old(pos) < |args| ==> t == Some(args[old(pos)]) && pos == old(pos) + 1
      ensures old(pos) == |args| ==> t == None && pos == old(pos)
    {
      if pos < |args| {
        t := Some(args[pos]);
        pos := pos + 1;
      } else {
        t := None;
      }
    }

    /** `prev($args)`: steps back; from the first element, or once past the end,
        the pointer is (or stays) past the end. */
    method Prev()
      requires Valid()
      modifies this
      ensures Valid() && args == old(args) && opts == old(opts)
      ensures pos == if 0 < old(pos) < |args| then old(pos) - 1 else |args|
    {
      if 0 < pos < |args| {
        pos := pos - 1;
      } else {
        pos := |args|;
      }
    }

    /** `current($args)` */
    method CurrentValue() returns (v: Value)
      requires Valid()
      ensures v == Current(args, pos)
    {
      v := if pos < |args| then Str(args[pos]) else Bool(false);
    }

    /** `next($args)` */
    method Next()
      requires Valid()
      modifies this
      ensures Valid() && args == old(args) && opts == old(opts)
      ensures pos == if old(pos) < |args| then old(pos) + 1 else old(pos)
    {
      if pos < |args| {
        pos := pos + 1;
      }
    }

    /** One pass of `_parseShortOption`'s loop, for the letter at index `i`:
        `done` when the loop is left, with `err` set when it throws. */
    method ParseLetter(rev: Revision, arg: string, i: nat, short: string, skip: bool)
      returns (done: bool, err: Option<GetoptError>)
      requires Valid() && i < |arg|
      modifies this
      ensures Valid() && args == old(args)
      ensures ShortLetter(rev, arg, i, short, skip, args, old(State()))
        == if !done then NextLetter(State()) else Finish(if err.None? then Ok(State()) else Err(err.value))
    {
      var opt := arg[i];
      var optArg: Value := Null;
      var found := FirstIndex(short, opt);
      if found.None? || opt == ':' {
        if skip {
          return true, None;
        }
        return true, Some(Unrecognized([opt]));
      }
      var spec := short[found.value..];
      assert spec[1..] == short[found.value + 1..];
      if |spec| > 1 && spec[1] == ':' {
        if |spec| > 2 && spec[2] == ':' {
          if i + 1 < |arg| {
            opts := opts + [Occurrence([opt], Str(arg[i + 1..]))];
            return true, None;
          }
          var next := Each();
          if next.Some? {
            optArg := Str(next.value);
            if OptionLike(next.value) {
              opts := opts + [Occurrence([opt], Null)];
              if rev == AsWritten {
                Prev();
              } else {
                pos := pos - 1;
              }
              return true, None;
            }
          }
        } else {
          if i + 1 < |arg| {
            opts := opts + [Occurrence([opt], Str(arg[i + 1..]))];
            return true, None;
          }
          var next := Each();
          if next.Some? {
            optArg := Str(next.value);
            if OptionLike(next.value) {
              return true, Some(RequiresArgument([opt]));
            }
          } else {
            return true, Some(RequiresArgument([opt]));
          }
        }
      }
      opts := opts + [Occurrence([opt], optArg)];
      done, err := false, None;
    }

    /** `_parseShortOption($arg, ...)`: `None` when it returns normally. */
    method ParseShortOption(rev: Revision, arg: string, short: string, skip: bool)
      returns (err: Option<GetoptError>)
      requires Valid()
      modifies this
      ensures Valid() && args == old(args)
      ensures ParseShort(rev, arg, 0, short, skip, args, old(State()))
        == if err.None? then Ok(State()) else Err(err.value)
    {
      var i := 0;
      while i < |arg|
        invariant 0 <= i <= |arg| && Valid() && args == old(args)
        invariant ParseShort(rev, arg, i, short, skip, args, State())
          == ParseShort(rev, arg, 0, short, skip, args, old(State()))
      {
        var done;
        done, err := ParseLetter(rev, arg, i, short, skip);
        if done {
          return;
        }
        i := i + 1;
      }
      err := None;
    }

    /** `_parseLongOption($arg, ...)`: `None` when it returns normally. */
    method ParseLongOption(arg: string, longs: seq<string>, skip: bool)
      returns (err: Option<GetoptError>)
      requires Valid()
      modifies this
      ensures Valid() && args == old(args)
      ensures ParseLong(arg, longs, skip, args, old(State()))
        == if err.None? then Ok(State()) else Err(err.value)
    {
      var (opt, optArg) := SplitAtEq(arg);
      var i := 0;
      while i < |longs|
        invariant 0 <= i <= |longs| && Valid() && args == old(args)
        invariant State() == old(State())
        invariant FindLong(longs, opt, 0) == FindLong(longs, opt, i)
      {
        if LongName(longs[i]) != opt {
          i := i + 1;
          continue;
        }
        assert FindLong(longs, opt, 0) == Some(i);
        var recorded, failed := MatchLongOption(opt, optArg, longs, i);
        if failed.Some? {
          return failed;
        }
        if recorded {
          return None;
        }
        break;
      }
      if skip {
        return None;
      }
      return Some(Unrecognized(opt));
    }

    /** The body of `_parseLongOption`'s loop for the declaration `longs[i]`
        that `opt` matched: `failed` when it throws, `recorded` when it
        returns, neither when it leaves the loop by `break`. */
    method MatchLongOption(opt: string, optArg: Option<string>, longs: seq<string>, i: nat)
      returns (recorded: bool, failed: Option<GetoptError>)
      requires Valid() && i < |longs|
      modifies this
      ensures Valid() && args == old(args)
      ensures MatchLong(opt, optArg, longs, i, args, old(State()))
        == if failed.Some? then Failed(failed.value) else if recorded then Recorded(State()) else Break(State())
    {
      var long := longs[i];
      if IsAmbiguous(opt, longs, i) {
        return false, Some(Ambiguous(opt));
      }
      if |long| > 0 && long[|long| - 1] == '=' {
        if LastTwo(long) != "==" {
          var value := optArg;
          if value.None? || value.value == "" {
            var next := Each();
            if next.None? {
              return false, Some(MissingArgument(opt));
            }
            value := next;
          }
          if OptionLike(value.value) {
            return false, Some(RequiresArgument(opt));
          }
          opts := opts + [Occurrence("--" + opt, Str(value.value))];
          return true, None;
        } else {
          var current := CurrentValue();
          if current.Str? && OptionLike(current.s) {
            opts := opts + [Occurrence("--" + opt, OptValue(optArg))];
          } else if optArg.None? {
            opts := opts + [Occurrence("--" + opt, current)];
            Next();
          } else {
            opts := opts + [Occurrence("--" + opt, Str(optArg.value))];
          }
          return false, None;
        }
      } else if optArg.Some? && Truthy(Str(optArg.value)) {
        return false, Some(NotAllowed(optArg.value));
      }
      opts := opts + [Occurrence("--" + opt, OptValue(optArg))];
      return true, None;
    }

    /** The body of `doGetopt`'s loop, once `each()` has read `arg` at index `i`:
        `Some` with the result when the loop ends or throws. */
    method Dispatch(rev: Revision, i: nat, arg: string, short: string, longs: seq<string>, skip: bool)
      returns (stop: Option<Result<Parsed, GetoptError>>)
      requires Valid() && i < |args| && args[i] == arg && pos == i + 1
      modifies this
      ensures Valid() && args == old(args)
      ensures WalkStep(rev, args, short, longs, skip, Scan(old(opts), i))
        == if stop.Some? then Stop(stop.value) else Continue(State())
    {
      WalkStepEnds(rev, args, short, longs, skip, Scan(opts, i));
      if arg == "--" {
        return Some(Ok(Parsed(opts, args[i + 1..])));
      }
      if arg == "" || arg[0] != '-' {
        return Some(Ok(Parsed(opts, args[i..])));
      } else if |arg| > 1 && arg[1] == '-' {
        ghost var before := Scan(opts, i);
        var err := ParseLongOption(arg[2..], longs, skip);
        WalkStepLong(rev, args, short, longs, skip, before);
        if err.Some? {
          return Some(Err(err.value));
        }
      } else if arg == "-" {
        return Some(Ok(Parsed(opts, args[i..])));
      } else {
        ghost var before := Scan(opts, i);
        var err := ParseShortOption(rev, arg[1..], short, skip);
        WalkStepShort(rev, args, short, longs, skip, before);
        if err.Some? {
          return Some(Err(err.value));
        }
      }
      stop := None;
    }
  }

  /** `doGetopt($version, $args, $short, $long, $skip_unknown)` */
  method DoGetopt(rev: Revision, version: int, args: seq<string>, short: string,
                  longs: seq<string>, skip: bool) returns (r: Result<Parsed, GetoptError>)
    ensures r == Tokenize(rev, version, args, short, longs, skip)
  {
    if args == [] {
      return Ok(Parsed([], []));
    }
    var sorted := longs;
    if longs != [] {
      sorted := Sort(longs);
    }
    var rest := args;
    if version < 2 {
      if args[0] != "" && args[0][0] != '-' {
        rest := args[1..];
      }
    }
    assert rest == ScriptArgs(version, args);
    ghost var whole := Walk(rev, rest, short, sorted, skip, Scan([], 0));
    assert whole == Tokenize(rev, version, args, short, longs, skip);
    var sc := new Scanner(rest);
    while true
      invariant sc.Valid() && sc.args == rest
      invariant Walk(rev, rest, short, sorted, skip, sc.State()) == whole
      decreases |rest| - sc.pos
    {
      var i := sc.pos;
      ghost var before := sc.State();
      var t := sc.Each();
      if t.None? {
        assert Walk(rev, rest, short, sorted, skip, before) == Ok(Parsed(sc.opts, []));
        return Ok(Parsed(sc.opts, []));
      }
      var stop := sc.Dispatch(rev, i, t.value, short, sorted, skip);
      assert Walk(rev, rest, short, sorted, skip, before)
        == match WalkStep(rev, rest, short, sorted, skip, before)
           case Stop(r) => r
           case Continue(s1) => Walk(rev, rest, short, sorted, skip, s1);
      if stop.Some? {
        return stop.value;
      }
    }
  }

  /** `getopt2`: the arguments do not start with the script name. */
  method Getopt2(rev: Revision, args: seq<string>, short: string, longs: seq<string>, skip: bool)
    returns (r: Result<Parsed, GetoptError>)
    ensures r == Tokenize(rev, 2, args, short, longs, skip)
  {
    r := DoGetopt(rev, 2, args, short, longs, skip);
  }

  /** `getopt`: kept for callers that pass the script name first. */
  method Getopt1(rev: Revision, args: seq<string>, short: string, longs: seq<string>, skip: bool)
    returns (r: Result<Parsed, GetoptError>)
    ensures r == Tokenize(rev, 1, args, short, longs, skip)
  {
    r := DoGetopt(rev, 1, args, short, longs, skip);
  }
}
