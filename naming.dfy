/** Option names: the alternative spellings a hyphenated name is given so that
    it can be read as a PHP property (`mangle`), and the getopt suffix that
    declares whether an option takes a value (`getSuffixForOption`). The same
    two helpers appear, identical, in each builder generation. */
module Naming {
  import opened Php

  /** `ucfirst` applied to every part. */
  function UcFirstAll(parts: seq<string>): (r: seq<string>)
    ensures |r| == |parts|
    ensures forall k :: 0 <= k < |parts| ==> r[k] == UcFirst(parts[k])
  {
    if parts == [] then [] else [UcFirst(parts[0])] + UcFirstAll(parts[1..])
  }

  /** `implode('', $parts)` */
  function Concat(parts: seq<string>): string {
    if parts == [] then "" else parts[0] + Concat(parts[1..])
  }

  /** `mangle($option)`: no spellings for a name without `-`; otherwise the parts
      between hyphens joined by `_`, and the first part followed by the others
      with their first letter upper-cased. */
  function Mangle(option: string): seq<string> {
    if FirstIndex(option, '-').None? then []
    else
      var parts := Split(option, '-');
      [Join(parts, "_"), parts[0] + Concat(UcFirstAll(parts[1..]))]
  }

  /** Every `from` in `s` replaced by `to`, character by character. */
  function MapChar(s: string, from: char, to: char): (r: string)
    ensures |r| == |s|
    ensures forall k :: 0 <= k < |s| ==> r[k] == if s[k] == from then to else s[k]
  {
    seq(|s|, k requires 0 <= k < |s| => if s[k] == from then to else s[k])
  }

  lemma MapCharAt(s: string, i: nat, c: char, d: char)
    requires i < |s| && s[i] == c && c !in s[..i]
    ensures MapChar(s, c, d) == s[..i] + [d] + MapChar(s[i + 1..], c, d)
  {
    var m := MapChar(s, c, d);
    var r := s[..i] + [d] + MapChar(s[i + 1..], c, d);
    assert |m| == |r|;
    forall k | 0 <= k < |m| ensures m[k] == r[k] {
      if k < i {
        assert s[..i][k] == s[k];
      }
    }
  }

  /** Splitting at a character and joining with another is replacing the one by the other. */
  lemma {:induction false} JoinSplitMaps(s: string, c: char, d: char)
    ensures Join(Split(s, c), [d]) == MapChar(s, c, d)
    decreases |s|
  {
    match FirstIndex(s, c)
    case None =>
      assert MapChar(s, c, d) == s;
    case Some(i) =>
      var x, y := s[..i], s[i + 1..];
      var rest := Split(y, c);
      assert Split(s, c) == [x] + rest;
      assert Join([x] + rest, [d]) == x + [d] + Join(rest, [d]);
      JoinSplitMaps(y, c, d);
      MapCharAt(s, i, c, d);
  }

  /** A name has mangled spellings exactly when it contains a hyphen, and then two. */
  lemma MangleCount(option: string)
    ensures '-' !in option ==> Mangle(option) == []
    ensures '-' in option ==> |Mangle(option)| == 2
  {
  }

  /** The underscore spelling is the name with every `-` replaced by `_`. */
  lemma UnderscoreSpelling(option: string)
    requires '-' in option
    ensures Mangle(option)[0] == MapChar(option, '-', '_')
  {
    JoinSplitMaps(option, '-', '_');
  }

  /** The underscore spelling can be turned back into the name when the name has no `_` of its own. */
  lemma UnderscoreSpellingInverse(option: string)
    requires '-' in option && '_' !in option
    ensures MapChar(Mangle(option)[0], '_', '-') == option
  {
    UnderscoreSpelling(option);
  }

  lemma {:induction false} ConcatFree(parts: seq<string>, c: char)
    requires forall k :: 0 <= k < |parts| ==> c !in parts[k]
    ensures c !in Concat(parts)
  {
    if parts != [] {
      ConcatFree(parts[1..], c);
    }
  }

  lemma UcFirstKeepsOut(s: string, c: char)
    requires c !in s && !('A' <= c <= 'Z')
    ensures c !in UcFirst(s)
  {
    if s != [] {
      assert UcFirst(s) == [UcFirst(s)[0]] + s[1..];
    }
  }

  /** Neither mangled spelling contains a hyphen, which is what makes both
      usable as property names. */
  lemma SpellingsHaveNoHyphen(option: string)
    requires '-' in option
    ensures '-' !in Mangle(option)[0] && '-' !in Mangle(option)[1]
  {
    UnderscoreSpelling(option);
    var parts := Split(option, '-');
    var ups := UcFirstAll(parts[1..]);
    forall k | 0 <= k < |ups| ensures '-' !in ups[k] {
      UcFirstKeepsOut(parts[1..][k], '-');
    }
    ConcatFree(ups, '-');
  }

  lemma StdOutParts()
    ensures FirstIndex("std-out", '-').Some? && Split("std-out", '-') == ["std", "out"]
  {
    assert "std-out" == "std" + ['-'] + "out";
    SplitCons("std", '-', "out");
    assert FirstIndex("out", '-').None?;
  }

  lemma UcFirstOut()
    ensures UcFirstAll(["out"]) == ["Out"]
  {
    var up := UcFirst("out");
    assert up == "Out" by {
      assert up[0] == 'O' && up[1..] == "ut";
    }
    assert UcFirstAll(["out"]) == [up] + UcFirstAll([]);
  }

  /** `std-out` is also reachable as `std_out` and as `stdOut`. */
  lemma MangleExample()
    ensures Mangle("std-out") == ["std_out", "stdOut"]
  {
    StdOutParts();
    UcFirstOut();
    var parts: seq<string> := ["std", "out"];
    assert parts[1..] == ["out"];
    assert Join(parts, "_") == "std" + "_" + "out" == "std_out";
    assert Concat(["Out"]) == "Out" + Concat([]);
    assert parts[0] + Concat(["Out"]) == "stdOut";
  }

  /** `getSuffixForOption($option, $hasValue, $optional)`: a one-character name is a
      short option (`:` requires a value, `::` makes it optional), anything else a
      long one (`=` and `==`). `optional` alone adds nothing. */
  function SuffixFor(option: string, hasValue: Value, optional: Value): string {
    var required := Truthy(hasValue);
    var both := Truthy(hasValue) && Truthy(optional);
    if |option| == 1 then
      if both then "::" else if required then ":" else ""
    else
      if both then "==" else if required then "=" else ""
  }
}
