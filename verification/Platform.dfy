/**
File name rules: what a destination accepts, how a name is made acceptable, and
the alternatives for a name that is taken.

A name is a sequence of Unicode characters. Its length in bytes is that of its
UTF-8 form. The Unicode tables are a parameter, with a few facts about ASCII.
*/
module Platform {
  import opened Common
  import Positional

  datatype OS = Linux | Windows

  datatype Rules = Rules(forbidden: string, reserved: seq<string>, trimTail: bool, maxBytes: int, foldCase: bool)

  const DEVICES: seq<string> := ["CON", "PRN", "AUX", "NUL"]
  const PORTS: seq<string> := ["COM1", "COM2", "COM3", "COM4", "COM5", "COM6", "COM7", "COM8", "COM9"]
  const PRINTERS: seq<string> := ["LPT1", "LPT2", "LPT3", "LPT4", "LPT5", "LPT6", "LPT7", "LPT8", "LPT9"]

  function RulesFor(os: OS): Rules {
    match os
    case Windows => Rules("<>:\"/\\|?*", DEVICES + PORTS + PRINTERS, true, 255, true)
    case Linux => Rules("/", [], false, 255, false)
  }

  /** The library's Unicode tables. `fold` names the class of characters that are
  equal but for case. */
  datatype Unicode = Unicode(upper: char -> char, space: char -> bool, fold: char -> char)

  ghost predicate Sane(u: Unicode) {
    && u.upper('_') == '_' && !u.space('_')
    && (forall c, d :: '0' <= c <= '9' && u.fold(c) == u.fold(d) ==> c == d)
  }

  predicate IsControl(c: char) {
    c as int < 0x20 || 0x7F <= c as int < 0xA0
  }

  predicate IsSeparator(c: char) {
    c == '/' || c == '\\'
  }

  /** How many bytes a character takes in UTF-8. */
  function Width(c: char): (w: nat)
    ensures 1 <= w <= 4
  {
    var v := c as int;
    if v < 0x80 then 1 else if v < 0x800 then 2 else if v < 0x1_0000 then 3 else 4
  }

  function ByteLen(s: string): nat {
    if |s| == 0 then 0 else ByteLen(s[..|s| - 1]) + Width(s[|s| - 1])
  }

  lemma {:induction false} ByteLenConcat(a: string, b: string)
    ensures ByteLen(a + b) == ByteLen(a) + ByteLen(b)
  {
    if |b| == 0 {
      assert a + b == a;
    } else {
      ByteLenConcat(a, b[..|b| - 1]);
      assert (a + b)[..|a + b| - 1] == a + b[..|b| - 1];
    }
  }

  // ---------------------------------------------------------------- sanitize

  /** What follows the last separator. */
  function BaseName(s: string): (r: string)
    ensures |r| <= |s|
  {
    if |s| == 0 || IsSeparator(s[|s| - 1]) then "" else BaseName(s[..|s| - 1]) + [s[|s| - 1]]
  }

  predicate Refused(c: char, rules: Rules) {
    IsControl(c) || c in rules.forbidden
  }

  function Replaced(s: string, rules: Rules): (r: string)
    ensures |r| == |s|
    ensures forall i :: 0 <= i < |s| ==> r[i] == if Refused(s[i], rules) then '_' else s[i]
  {
    seq(|s|, i requires 0 <= i < |s| => if Refused(s[i], rules) then '_' else s[i])
  }

  predicate InTail(c: char) {
    c == '.' || c == ' '
  }

  function TrimTail(s: string): (r: string)
    ensures r <= s
    ensures |r| > 0 ==> !InTail(r[|r| - 1])
  {
    if |s| > 0 && InTail(s[|s| - 1]) then TrimTail(s[..|s| - 1]) else s
  }

  /** Where the first dot is, or the length when there is none. */
  function DotIndex(s: string): (i: nat)
    ensures i <= |s|
  {
    if |s| == 0 || s[0] == '.' then 0 else 1 + DotIndex(s[1..])
  }

  /** The first dot, if it is not the first character, ends the base name. */
  function BeforeDot(s: string): (r: string)
    ensures r <= s
    ensures |s| > 0 ==> |r| > 0
  {
    if DotIndex(s) > 0 then s[..DotIndex(s)] else s
  }

  function TrimLeft(u: Unicode, s: string): string {
    if |s| > 0 && u.space(s[0]) then TrimLeft(u, s[1..]) else s
  }

  function TrimRight(u: Unicode, s: string): string {
    if |s| > 0 && u.space(s[|s| - 1]) then TrimRight(u, s[..|s| - 1]) else s
  }

  function Upper(u: Unicode, s: string): (r: string)
    ensures |r| == |s| && forall i :: 0 <= i < |s| ==> r[i] == u.upper(s[i])
  {
    seq(|s|, i requires 0 <= i < |s| => u.upper(s[i]))
  }

  predicate IsReserved(u: Unicode, name: string, reserved: seq<string>) {
    |reserved| > 0 && Upper(u, TrimRight(u, TrimLeft(u, BeforeDot(name)))) in reserved
  }

  /** From the last dot on, unless that is the first character. */
  function Extension(s: string): (r: string)
    ensures |r| < |s| || r == "" == s
    ensures s == s[..|s| - |r|] + r
  {
    if |s| <= 1 then ""
    else if s[|s| - 1] == '.' then "."
    else
      var e := Extension(s[..|s| - 1]);
      if e == "" then "" else e + [s[|s| - 1]]
  }

  /** The longest prefix that fits the budget. */
  function Fit(s: string, budget: nat): (r: string)
    ensures r <= s && ByteLen(r) <= budget
    ensures ByteLen(s) <= budget ==> r == s
    ensures |r| < |s| ==> ByteLen(s[..|r| + 1]) > budget
  {
    if ByteLen(s) <= budget then s
    else
      var r := Fit(s[..|s| - 1], budget);
      assert |r| + 1 < |s| ==> s[..|s| - 1][..|r| + 1] == s[..|r| + 1];
      assert s[..|s|] == s;
      r
  }

  function TruncateBytes(s: string, max: int): string {
    if max <= 0 || ByteLen(s) <= max then s
    else
      var (stem, ext, budget) := Cut(s, max);
      Fit(stem, budget) + ext
  }

  /** The stem, the extension if it is kept, and the budget of the stem. */
  function Cut(s: string, max: nat): (r: (string, string, nat))
    requires 0 < max < ByteLen(s)
    ensures s == r.0 + r.1 && |r.0| > 0 && r.2 > 0 && r.2 + ByteLen(r.1) == max
  {
    var e := Extension(s);
    var ext := if ByteLen(e) <= 16 && ByteLen(e) < max then e else "";
    (s[..|s| - |ext|], ext, max - ByteLen(ext))
  }

  /** How many bits a UTF-8 sequence of `w` bytes carries. */
  function Payload(w: nat): nat {
    if w == 1 then 7 else 5 * w + 1
  }

  /** A character takes the fewest bytes whose payload holds its number. */
  lemma WidthIsUtf8(c: char)
    ensures c as int < Positional.Pow(2, Payload(Width(c)))
    ensures Width(c) > 1 ==> Positional.Pow(2, Payload(Width(c) - 1)) <= c as int
  {
    assert Positional.Pow(2, 7) == 0x80;
    assert Positional.Pow(2, 8) == 0x100 && Positional.Pow(2, 9) == 0x200 && Positional.Pow(2, 10) == 0x400;
    assert Positional.Pow(2, 11) == 0x800 && Positional.Pow(2, 12) == 0x1000 && Positional.Pow(2, 13) == 0x2000;
    assert Positional.Pow(2, 14) == 0x4000 && Positional.Pow(2, 15) == 0x8000 && Positional.Pow(2, 16) == 0x1_0000;
    assert Positional.Pow(2, 17) == 0x2_0000 && Positional.Pow(2, 18) == 0x4_0000;
    assert Positional.Pow(2, 19) == 0x8_0000 && Positional.Pow(2, 20) == 0x10_0000;
    assert Positional.Pow(2, 21) == 0x20_0000;
  }

  /** Trailing dots and spaces go, all of them and nothing else. */
  lemma {:induction false} TailIsTrimmed(s: string, tail: string)
    requires forall i :: 0 <= i < |tail| ==> tail[i] in {'.', ' '}
    requires s == "" || s[|s| - 1] !in {'.', ' '}
    ensures TrimTail(s + tail) == s
    decreases |tail|
  {
    if tail == "" {
      assert s + tail == s;
    } else {
      assert (s + tail)[..|s + tail| - 1] == s + tail[..|tail| - 1];
      TailIsTrimmed(s, tail[..|tail| - 1]);
    }
  }

  /** The two rule sets, written out. */
  lemma RulesAre(os: OS, c: char, name: string)
    ensures RulesFor(os).maxBytes == 255
    ensures RulesFor(os).trimTail <==> os == Windows
    ensures Refused(c, RulesFor(os))
            <==> || c as int < 32 || 127 <= c as int < 160
                 || c == '/' || (os == Windows && c in {'<', '>', ':', '"', '\\', '|', '?', '*'})
    ensures name in RulesFor(os).reserved
            <==> os == Windows && (name in {"CON", "PRN", "AUX", "NUL"}
                                   || (|name| == 4 && name[..3] in {"COM", "LPT"} && '1' <= name[3] <= '9'))
  {
    if os == Windows {
      DeviceNames(name);
      WindowsForbids(c);
    } else {
      assert RulesFor(os).forbidden == ['/'];
    }
    hide RulesFor;
  }

  lemma WindowsForbids(c: char)
    ensures c in RulesFor(Windows).forbidden <==> c in {'<', '>', ':', '"', '/', '\\', '|', '?', '*'}
  {
    var f := RulesFor(Windows).forbidden;
    assert f == ['<', '>', ':', '"', '/', '\\', '|', '?', '*'];
    assert f[0] == '<' && f[1] == '>' && f[2] == ':' && f[3] == '"' && f[4] == '/' && f[5] == '\\' && f[6] == '|'
           && f[7] == '?' && f[8] == '*';
  }

  lemma DeviceNames(name: string)
    ensures name in DEVICES + PORTS + PRINTERS
            <==> name in {"CON", "PRN", "AUX", "NUL"}
                 || (|name| == 4 && name[..3] in {"COM", "LPT"} && '1' <= name[3] <= '9')
  {
    assert name in DEVICES <==> name in {"CON", "PRN", "AUX", "NUL"} by {
      assert DEVICES[0] == "CON" && DEVICES[1] == "PRN" && DEVICES[2] == "AUX" && DEVICES[3] == "NUL";
    }
    NumberedNames(name, "COM", PORTS);
    NumberedNames(name, "LPT", PRINTERS);
    hide DEVICES, PORTS, PRINTERS;
  }

  lemma NumberedNames(name: string, word: string, names: seq<string>)
    requires |word| == 3 && |names| == 9
    requires forall k | 0 <= k < 9 :: names[k] == word + [('1' as int + k) as char]
    ensures name in names <==> |name| == 4 && name[..3] == word && '1' <= name[3] <= '9'
  {
    if |name| == 4 && name[..3] == word && '1' <= name[3] <= '9' {
      var k := name[3] as int - '1' as int;
      assert name == name[..3] + [name[3]];
      assert names[k] == name;
    }
  }

  /** A base name ends before the first dot, unless the name begins with it: so a device
  name is reserved whatever extension follows. */
  lemma ReservedWhateverFollows(u: Unicode, s: string, rest: string, reserved: seq<string>)
    requires s != "" && '.' !in s
    ensures BeforeDot(s) == s && BeforeDot(s + "." + rest) == s && BeforeDot("." + rest) == "." + rest
    ensures IsReserved(u, s + "." + rest, reserved) <==> IsReserved(u, s, reserved)
    ensures reserved != [] ==>
              (IsReserved(u, s, reserved) <==> Upper(u, TrimRight(u, TrimLeft(u, s))) in reserved)
  {
    FirstDot(s, rest);
    assert (s + "." + rest)[..|s|] == s;
    assert ("." + rest)[0] == '.';
  }

  /** Spaces around a base name do not hide a device name. */
  lemma SpacesAroundAreIgnored(u: Unicode, left: string, s: string, right: string)
    requires s != "" && !u.space(s[0]) && !u.space(s[|s| - 1])
    requires (forall c <- left :: u.space(c)) && (forall c <- right :: u.space(c))
    ensures TrimRight(u, TrimLeft(u, left + s + right)) == s
  {
    LeftGoes(u, left, s + right);
    assert left + s + right == left + (s + right);
    RightGoes(u, s, right);
  }

  lemma {:induction false} LeftGoes(u: Unicode, left: string, rest: string)
    requires rest != "" && !u.space(rest[0]) && forall c <- left :: u.space(c)
    ensures TrimLeft(u, left + rest) == rest
  {
    if left == "" {
      assert left + rest == rest;
    } else {
      assert (left + rest)[1..] == left[1..] + rest;
      LeftGoes(u, left[1..], rest);
    }
  }

  lemma {:induction false} RightGoes(u: Unicode, s: string, right: string)
    requires s != "" && !u.space(s[|s| - 1]) && forall c <- right :: u.space(c)
    ensures TrimRight(u, s + right) == s
    decreases |right|
  {
    if right == "" {
      assert s + right == s;
    } else {
      assert (s + right)[..|s + right| - 1] == s + right[..|right| - 1];
      RightGoes(u, s, right[..|right| - 1]);
    }
  }

  lemma {:induction false} FirstDot(s: string, rest: string)
    requires '.' !in s
    ensures DotIndex(s + "." + rest) == |s| == DotIndex(s)
  {
    if s == "" {
      assert s + "." + rest == "." + rest;
    } else {
      assert (s + "." + rest)[1..] == s[1..] + "." + rest;
      FirstDot(s[1..], rest);
    }
  }

  predicate Hopeless(name: string) {
    name == "" || name == "." || name == ".."
  }

  /** The name with its reserved form escaped, before it is cut to size. */
  function Escaped(u: Unicode, name: string, rules: Rules): string {
    var plain := Replaced(BaseName(name), rules);
    var trimmed := if rules.trimTail then TrimTail(plain) else plain;
    if IsReserved(u, trimmed, rules.reserved) then "_" + trimmed else trimmed
  }

  function Sanitize(u: Unicode, name: string, rules: Rules): string {
    var cut := TruncateBytes(Escaped(u, name, rules), rules.maxBytes);
    if Hopeless(cut) then "unnamed" else cut
  }

  // ----------------------------------------------------- what sanitize promises

  /** Characters that `Sanitize` can leave in a name. */
  predicate Clean(s: string, rules: Rules) {
    forall i :: 0 <= i < |s| ==> !IsSeparator(s[i]) && !Refused(s[i], rules)
  }

  /** The facts about a rule set that the guarantees rest on: the characters that
  `Sanitize` and `CollisionName` add are accepted, "unnamed" fits, and no reserved
  name begins with the escape. */
  predicate Usable(rules: Rules) {
    && rules.maxBytes >= 7
    && !Refused('_', rules) && Clean("unnamed", rules)
    && !Refused(' ', rules) && !Refused('(', rules) && !Refused(')', rules)
    && (forall c :: '0' <= c <= '9' ==> !Refused(c, rules))
    && WordsOnly(rules.reserved)
  }

  lemma BothRuleSetsAreUsable(os: OS)
    ensures Usable(RulesFor(os))
  {
    hide WordsOnly, IsControl;
    ReservedAreWords();
    AddedAreAccepted(os);
    if os == Windows {
      WordsOfBoth(DEVICES + PORTS, PRINTERS);
      WordsOfBoth(DEVICES, PORTS);
    } else {
      NoWords();
    }
  }

  predicate WordsOnly(names: seq<string>) {
    forall i :: 0 <= i < |names| ==> |names[i]| > 0 && names[i][0] != '_'
  }

  lemma WordsOfBoth(a: seq<string>, b: seq<string>)
    requires WordsOnly(a) && WordsOnly(b)
    ensures WordsOnly(a + b)
  {
  }

  lemma NoWords()
    ensures WordsOnly([])
  {
  }

  lemma ReservedAreWords()
    ensures WordsOnly(DEVICES) && WordsOnly(PORTS) && WordsOnly(PRINTERS)
  {
  }

  lemma AddedAreAccepted(os: OS)
    ensures var rules := RulesFor(os);
            && !Refused('_', rules) && Clean("unnamed", rules)
            && !Refused(' ', rules) && !Refused('(', rules) && !Refused(')', rules)
            && (forall c :: '0' <= c <= '9' ==> !Refused(c, rules))
  {
    hide Refused;
    LettersAreAccepted(os);
    PunctuationIsAccepted(os);
    DigitsAreAccepted(os);
  }

  lemma LettersAreAccepted(os: OS)
    ensures forall c :: 'a' <= c <= 'z' ==> !IsSeparator(c) && !Refused(c, RulesFor(os))
  {
  }

  lemma PunctuationIsAccepted(os: OS)
    ensures var rules := RulesFor(os);
            !Refused('_', rules) && !Refused(' ', rules) && !Refused('(', rules) && !Refused(')', rules)
  {
  }

  lemma DigitsAreAccepted(os: OS)
    ensures forall c :: '0' <= c <= '9' ==> !Refused(c, RulesFor(os))
  {
  }

  /** The base name is what follows the last separator, all of a name without one. */
  lemma BaseNameIsSuffix(s: string)
    ensures BaseName(s) == s[|s| - |BaseName(s)|..]
    ensures |BaseName(s)| < |s| ==> IsSeparator(s[|s| - |BaseName(s)| - 1])
    ensures forall i :: 0 <= i < |BaseName(s)| ==> !IsSeparator(BaseName(s)[i])
    ensures (forall i :: 0 <= i < |s| ==> !IsSeparator(s[i])) ==> BaseName(s) == s
  {
    hide BaseName, IsSeparator;
    BaseNameEndsName(s);
    BaseNameHasNoSeparator(s);
  }

  lemma {:induction false} BaseNameEndsName(s: string)
    ensures BaseName(s) == s[|s| - |BaseName(s)|..]
    ensures |BaseName(s)| < |s| ==> IsSeparator(s[|s| - |BaseName(s)| - 1])
  {
    hide IsSeparator;
    if |s| > 0 && !IsSeparator(s[|s| - 1]) {
      BaseNameEndsName(s[..|s| - 1]);
    }
  }

  lemma {:induction false} BaseNameHasNoSeparator(s: string)
    ensures forall i :: 0 <= i < |BaseName(s)| ==> !IsSeparator(BaseName(s)[i])
  {
    hide IsSeparator;
    if |s| > 0 && !IsSeparator(s[|s| - 1]) {
      BaseNameHasNoSeparator(s[..|s| - 1]);
    }
  }

  lemma ReplacedIsClean(s: string, rules: Rules)
    requires !Refused('_', rules) && forall i :: 0 <= i < |s| ==> !IsSeparator(s[i])
    ensures Clean(Replaced(s, rules), rules)
  {
  }

  lemma EscapedIsClean(u: Unicode, name: string, rules: Rules)
    requires Usable(rules)
    ensures Clean(Escaped(u, name, rules), rules)
  {
    hide IsReserved, Refused, Replaced, BaseName, TrimTail, Clean;
    BaseNameHasNoSeparator(name);
    var plain := Replaced(BaseName(name), rules);
    ReplacedIsClean(BaseName(name), rules);
    var trimmed := if rules.trimTail then TrimTail(plain) else plain;
    PartsAreClean(plain, trimmed, rules);
  }

  lemma PartsAreClean(s: string, p: string, rules: Rules)
    requires Clean(s, rules) && p <= s && !Refused('_', rules)
    ensures Clean(p, rules) && Clean("_" + p, rules)
  {
    hide Refused;
  }

  lemma TruncateFits(s: string, max: int)
    ensures max > 0 ==> ByteLen(TruncateBytes(s, max)) <= max
    ensures |TruncateBytes(s, max)| <= |s|
    ensures |TruncateBytes(s, max)| == |s| ==> TruncateBytes(s, max) == s
  {
    hide Fit, Extension, Cut, ByteLen;
    if max > 0 && ByteLen(s) > max {
      var (stem, ext, budget) := Cut(s, max);
      ByteLenConcat(Fit(stem, budget), ext);
    }
  }

  /** Truncation keeps a prefix and perhaps the end of the name. */
  lemma TruncateIsPrefixAndSuffix(s: string, max: int) returns (k: nat, j: nat)
    ensures k <= j <= |s| && TruncateBytes(s, max) == s[..k] + s[j..]
    ensures |s| > 0 && Width(s[0]) == 1 ==> k > 0
  {
    hide Fit, Extension, Cut;
    if max <= 0 || ByteLen(s) <= max {
      return |s|, |s|;
    }
    var (stem, ext, budget) := Cut(s, max);
    var fit := Fit(stem, budget);
    k, j := |fit|, |stem|;
    assert fit == stem[..k] == s[..k] && ext == s[j..];
    if Width(s[0]) == 1 && |fit| == 0 {
      OneCharacter(stem);
    }
  }

  lemma OneCharacter(s: string)
    requires |s| > 0
    ensures ByteLen(s[..1]) == Width(s[0])
  {
    assert s[..1][..0] == [];
  }

  /** Whatever arrives, the result is a single component that the destination
  stores: no separator, control or forbidden character, never empty, "." or "..",
  and within the byte limit. */
  lemma SanitizeIsSafe(u: Unicode, name: string, rules: Rules)
    requires Usable(rules)
    ensures Clean(Sanitize(u, name, rules), rules) && !Hopeless(Sanitize(u, name, rules))
    ensures ByteLen(Sanitize(u, name, rules)) <= rules.maxBytes
  {
    hide Escaped, TruncateBytes, Refused;
    EscapedIsClean(u, name, rules);
    var s := Escaped(u, name, rules);
    TruncateFits(s, rules.maxBytes);
    var k, j := TruncateIsPrefixAndSuffix(s, rules.maxBytes);
    AsciiLen("unnamed");
  }

  /** Names the destination can store as they are. */
  predicate Legal(u: Unicode, name: string, rules: Rules) {
    && !Hopeless(name) && Clean(name, rules)
    && (rules.trimTail ==> !InTail(name[|name| - 1]))
    && !IsReserved(u, name, rules.reserved)
    && ByteLen(name) <= rules.maxBytes
  }

  /** A name is kept exactly when it is legal at the destination. */
  lemma UnchangedExactlyWhenLegal(u: Unicode, name: string, rules: Rules)
    requires Usable(rules) && Sane(u)
    ensures Sanitize(u, name, rules) == name <==> Legal(u, name, rules)
  {
    hide IsReserved, Sane;
    BaseNameIsSuffix(name);
    if Legal(u, name, rules) {
      assert Replaced(BaseName(name), rules) == name;
      assert Sanitize(u, name, rules) == name;
    } else if Sanitize(u, name, rules) == name {
      KeptIsLegal(u, name, rules);
    }
  }

  lemma KeptIsLegal(u: Unicode, name: string, rules: Rules)
    requires Usable(rules) && Sane(u) && Sanitize(u, name, rules) == name
    ensures Legal(u, name, rules)
  {
    hide IsReserved, Sane, TruncateBytes;
    SanitizeIsSafe(u, name, rules);
    BaseNameIsSuffix(name);
    assert BaseName(name) == name;
    assert Replaced(name, rules) == name;
    var trimmed := if rules.trimTail then TrimTail(name) else name;
    TruncateFits(Escaped(u, name, rules), rules.maxBytes);
    if IsReserved(u, trimmed, rules.reserved) {
      EscapedStartsUnderscore(u, name, rules);
      UnderscoreIsNotReserved(u, trimmed, rules);
    }
  }

  lemma EscapedStartsUnderscore(u: Unicode, name: string, rules: Rules)
    requires Usable(rules) && Sanitize(u, name, rules) == name
    requires Replaced(BaseName(name), rules) == name
    requires var trimmed := if rules.trimTail then TrimTail(name) else name; IsReserved(u, trimmed, rules.reserved)
    ensures var trimmed := if rules.trimTail then TrimTail(name) else name; |trimmed| > 0 && trimmed[0] == '_'
  {
    hide IsReserved, TruncateBytes, Refused, BaseName, Replaced, TrimTail;
    var k, j := TruncateIsPrefixAndSuffix(Escaped(u, name, rules), rules.maxBytes);
    assert Escaped(u, name, rules)[0] == '_';
    var cut := TruncateBytes(Escaped(u, name, rules), rules.maxBytes);
    assert cut[0] == '_' && !Hopeless(cut) && name == cut;
    if rules.trimTail { TrimKeepsFirst(name); }
  }

  lemma {:induction false} TrimKeepsFirst(s: string)
    requires |s| > 0 && !InTail(s[0])
    ensures |TrimTail(s)| > 0 && TrimTail(s)[0] == s[0]
  {
    if InTail(s[|s| - 1]) { TrimKeepsFirst(s[..|s| - 1]); }
  }

  lemma UnderscoreIsNotReserved(u: Unicode, s: string, rules: Rules)
    requires Usable(rules) && Sane(u) && |s| > 0 && s[0] == '_'
    ensures !IsReserved(u, s, rules.reserved)
  {
    var base := BeforeDot(s);
    assert base[0] == '_';
    assert TrimLeft(u, base) == base;
    TrimRightKeepsFirst(u, base);
    assert Upper(u, TrimRight(u, base))[0] == '_';
  }

  lemma {:induction false} TrimRightKeepsFirst(u: Unicode, s: string)
    requires |s| > 0 && !u.space(s[0])
    ensures |TrimRight(u, s)| > 0 && TrimRight(u, s)[0] == s[0]
  {
    if u.space(s[|s| - 1]) { TrimRightKeepsFirst(u, s[..|s| - 1]); }
  }

  /** Unless the name had to be cut, the result is legal, so a second pass keeps
  it. (Cutting comes after the rules on endings and reserved names.) */
  lemma SanitizedIsLegalUnlessCut(u: Unicode, name: string, rules: Rules)
    requires Usable(rules) && Sane(u) && Legal(u, "unnamed", rules)
    requires ByteLen(Escaped(u, name, rules)) <= rules.maxBytes
    ensures Legal(u, Sanitize(u, name, rules), rules)
    ensures Sanitize(u, Sanitize(u, name, rules), rules) == Sanitize(u, name, rules)
  {
    hide IsReserved, Sane, Refused, ByteLen, Fit, Cut, Replaced, BaseName, Clean;
    EscapedIsClean(u, name, rules);
    var s := Escaped(u, name, rules);
    assert Sanitize(u, name, rules) == if Hopeless(s) then "unnamed" else s;
    if |s| > 0 && s[0] == '_' { UnderscoreIsNotReserved(u, s, rules); }
    UnchangedExactlyWhenLegal(u, Sanitize(u, name, rules), rules);
  }

  // --------------------------------------------------------------- collisions

  function Digit(d: nat): char
    requires d < 10
  {
    "0123456789"[d]
  }

  function Decimal(n: nat): (s: string)
    ensures |s| >= 1
    ensures forall i :: 0 <= i < |s| ==> '0' <= s[i] <= '9'
  {
    if n < 10 then [Digit(n)] else Decimal(n / 10) + [Digit(n % 10)]
  }

  lemma DigitsDiffer(a: nat, b: nat)
    requires a < 10 && b < 10 && Digit(a) == Digit(b)
    ensures a == b
  {
  }

  lemma {:induction false} DecimalIsInjective(n: nat, m: nat)
    requires Decimal(n) == Decimal(m)
    ensures n == m
  {
    hide Digit;
    var s, t := Decimal(n), Decimal(m);
    assert s[|s| - 1] == Digit(n % 10) && t[|t| - 1] == Digit(m % 10);
    DigitsDiffer(n % 10, m % 10);
    if n >= 10 && m >= 10 {
      assert s[..|s| - 1] == Decimal(n / 10) && t[..|t| - 1] == Decimal(m / 10);
      DecimalIsInjective(n / 10, m / 10);
    }
  }

  /** How many digits a number takes, up to the last attempt. */
  lemma DecimalLength(n: nat)
    requires 1 <= n <= 1000
    ensures |Decimal(n)| == if n < 10 then 1 else if n < 100 then 2 else if n < 1000 then 3 else 4
  {
    hide Digit;
    var m := n / 10;
    assert |Decimal(n)| == if n < 10 then 1 else |Decimal(m)| + 1;
    assert |Decimal(m)| == if m < 10 then 1 else |Decimal(m / 10)| + 1;
    assert |Decimal(m / 10)| == if m / 10 < 10 then 1 else |Decimal(m / 10 / 10)| + 1;
    assert m / 10 / 10 < 10;
  }

  /** The n-th alternative for a taken name, as in "report (2).pdf". */
  function CollisionName(name: string, n: nat): string {
    if n < 2 then name
    else
      var ext := Extension(name);
      name[..|name| - |ext|] + " (" + Decimal(n) + ")" + ext
  }

  predicate EqualNames(u: Unicode, a: string, b: string, rules: Rules) {
    if rules.foldCase then |a| == |b| && forall i :: 0 <= i < |a| ==> u.fold(a[i]) == u.fold(b[i]) else a == b
  }

  lemma EqualNamesIsAnEquivalence(u: Unicode, a: string, b: string, c: string, rules: Rules)
    ensures EqualNames(u, a, a, rules)
    ensures EqualNames(u, a, b, rules) ==> EqualNames(u, b, a, rules)
    ensures EqualNames(u, a, b, rules) && EqualNames(u, b, c, rules) ==> EqualNames(u, a, c, rules)
  {
  }

  /** Two alternatives are never the same file, under either case rule. */
  lemma AlternativesDiffer(u: Unicode, name: string, n: nat, m: nat, rules: Rules)
    requires Sane(u) && 1 <= n < m
    ensures !EqualNames(u, CollisionName(name, n), CollisionName(name, m), rules)
  {
    if EqualNames(u, CollisionName(name, n), CollisionName(name, m), rules) {
      var a, b := CollisionName(name, n), CollisionName(name, m);
      var ext := Extension(name);
      var k := |name| - |ext| + 2;
      var x, y := Decimal(n), Decimal(m);
      assert |b| == |name| + 3 + |y|;
      assert n >= 2;
      assert forall i :: 0 <= i < |x| ==> a[k + i] == x[i] && b[k + i] == y[i];
      assert forall i :: 0 <= i < |x| ==> x[i] == y[i];
      assert x == y;
      DecimalIsInjective(n, m);
    }
  }

  /** An alternative is as safe as its name, but it is longer by the number it
  carries, which the byte limit does not take into account. */
  lemma AlternativeIsSafe(name: string, n: nat, rules: Rules)
    requires Usable(rules) && Clean(name, rules) && !Hopeless(name)
    ensures Clean(CollisionName(name, n), rules) && !Hopeless(CollisionName(name, n))
    ensures ByteLen(CollisionName(name, n)) == ByteLen(name) + if n < 2 then 0 else 3 + |Decimal(n)|
  {
    hide Extension, Decimal, Refused, ByteLen;
    if n >= 2 {
      var ext := Extension(name);
      var stem := name[..|name| - |ext|];
      AlternativeLength(stem, Decimal(n), ext);
      assert name == stem + ext;
      assert CollisionName(name, n) == stem + (" (" + Decimal(n) + ")") + ext;
      assert CollisionName(name, n)[|stem| + 1] == '(';
    }
  }

  lemma AlternativeLength(stem: string, d: string, ext: string)
    requires forall i :: 0 <= i < |d| ==> '0' <= d[i] <= '9'
    ensures ByteLen(stem + (" (" + d + ")") + ext) == ByteLen(stem + ext) + 3 + |d|
  {
    hide ByteLen;
    var middle := " (" + d + ")";
    ByteLenConcat(stem + middle, ext);
    ByteLenConcat(stem, middle);
    ByteLenConcat(stem, ext);
    AsciiLen(middle);
  }

  lemma {:induction false} AsciiLen(s: string)
    requires forall i :: 0 <= i < |s| ==> s[i] as int < 0x80
    ensures ByteLen(s) == |s|
  {
    if |s| > 0 { AsciiLen(s[..|s| - 1]); }
  }

  // --------------------------------------------------------------- extensions

  /** No character but the first is a dot. */
  predicate Dotless(s: string) {
    forall i :: 0 < i < |s| ==> s[i] != '.'
  }

  lemma {:induction false} ExtensionShape(s: string)
    ensures var e := Extension(s);
            (e != "" ==> e[0] == '.' && Dotless(e)) && (e == "" <==> Dotless(s))
  {
    if |s| > 1 && s[|s| - 1] != '.' {
      ExtensionShape(s[..|s| - 1]);
      DotlessLast(s);
    }
  }

  lemma DotlessLast(s: string)
    requires |s| > 1
    ensures Dotless(s) <==> Dotless(s[..|s| - 1]) && s[|s| - 1] != '.'
  {
    var t := s[..|s| - 1];
    if Dotless(s) {
      assert forall i :: 0 < i < |t| ==> t[i] == s[i];
    } else {
      var i :| 0 < i < |s| && s[i] == '.';
      assert i < |t| ==> t[i] == '.';
    }
  }

  lemma {:induction false} ExtensionOfSum(stem: string, e: string)
    requires |stem| > 0 && |e| > 0 && e[0] == '.' && Dotless(e)
    ensures Extension(stem + e) == e
  {
    if |e| > 1 {
      DotlessLast(e);
      ExtensionOfSum(stem, e[..|e| - 1]);
      assert (stem + e)[..|stem + e| - 1] == stem + e[..|e| - 1];
    }
  }

  /** An alternative puts its number between the stem and the extension of the name,
  so the file still opens with the same application. */
  lemma AlternativeKeepsExtension(name: string, n: nat)
    ensures var c := CollisionName(name, n); var e := Extension(name);
            && Extension(c) == e
            && c == name[..|name| - |e|] + (if n < 2 then "" else " (" + Decimal(n) + ")") + e
  {
    hide Decimal, Extension, Dotless;
    var e := Extension(name);
    ExtensionShape(name);
    if n < 2 {
      assert name == name[..|name| - |e|] + "" + e;
    } else {
      NumberedKeepsExtension(name, Decimal(n));
      NumberIsOnePart(name[..|name| - |e|], Decimal(n), e);
    }
  }

  lemma NumberIsOnePart(a: string, d: string, b: string)
    ensures a + " (" + d + ")" + b == a + (" (" + d + ")") + b
  {
  }

  lemma NumberedKeepsExtension(name: string, d: string)
    requires forall i :: 0 <= i < |d| ==> '0' <= d[i] <= '9'
    ensures Extension(name[..|name| - |Extension(name)|] + " (" + d + ")" + Extension(name)) == Extension(name)
  {
    hide Extension, Dotless;
    var e := Extension(name);
    var stem := name[..|name| - |e|] + " (" + d + ")";
    ExtensionShape(name);
    if e != "" {
      ExtensionOfSum(stem, e);
    } else {
      assert name[..|name| - |e|] == name;
      NumberHasNoDot(name, d);
      ExtensionShape(stem + e);
    }
  }

  lemma NumberHasNoDot(name: string, d: string)
    requires Dotless(name) && forall i :: 0 <= i < |d| ==> '0' <= d[i] <= '9'
    ensures Dotless(name + " (" + d + ")" + "")
  {
  }

  /** A longer one is cut like the rest of the name: the result is a prefix of it. */
  lemma LongExtensionIsCut(s: string, max: int)
    requires ByteLen(Extension(s)) > 16
    ensures TruncateBytes(s, max) <= s
  {
    hide Fit, Extension;
  }

  /** Cutting a name keeps its extension when that is at most 16 bytes and the limit
  leaves room for one more character. */
  lemma TruncationKeepsExtension(s: string, max: nat)
    requires ByteLen(Extension(s)) <= 16 && max >= 20
    ensures Extension(TruncateBytes(s, max)) == Extension(s)
  {
    hide Fit, Extension, Dotless, ByteLen;
    var e := Extension(s);
    ExtensionShape(s);
    if ByteLen(s) > max {
      var (stem, ext, budget) := Cut(s, max);
      var fit := Fit(stem, budget);
      assert ext == e;
      OneCharacter(stem);
      if e != "" {
        ExtensionOfSum(fit, e);
      } else {
        assert stem == s && fit + ext == fit;
        DotlessPrefix(s, fit);
        ExtensionShape(fit);
      }
    }
  }

  lemma DotlessPrefix(s: string, p: string)
    requires Dotless(s) && p <= s
    ensures Dotless(p)
  {
  }

  // ----------------------------------------------------------------- methods

  method CheckReserved(u: Unicode, name: string, reserved: seq<string>) returns (r: bool)
    ensures r <==> IsReserved(u, name, reserved)
  {
    if |reserved| == 0 { return false; }
    var base := Upper(u, TrimRight(u, TrimLeft(u, BeforeDot(name))));
    for i := 0 to |reserved|
      invariant base !in reserved[..i]
    {
      if base == reserved[i] { return true; }
    }
    r := false;
  }

  lemma FitStep(s: string, budget: nat)
    ensures ByteLen(s) > budget ==> |s| > 0 && Fit(s, budget) == Fit(s[..|s| - 1], budget)
    ensures ByteLen(s) <= budget ==> Fit(s, budget) == s
  {
  }

  method Truncate(name: string, max: int) returns (r: string)
    ensures r == TruncateBytes(name, max)
  {
    hide Fit, Extension;
    if max <= 0 || ByteLen(name) <= max { return name; }
    var ext := Extension(name);
    if ByteLen(ext) > 16 { ext := ""; }
    var budget := max - ByteLen(ext);
    if budget <= 0 { ext, budget := "", max; }
    var stem := name[..|name| - |ext|];
    ghost var whole := stem;
    assert Cut(name, max) == (stem, ext, budget);
    while ByteLen(stem) > budget
      invariant Fit(stem, budget) == Fit(whole, budget)
      decreases |stem|
    {
      FitStep(stem, budget);
      stem := stem[..|stem| - 1];
    }
    FitStep(stem, budget);
    r := stem + ext;
  }

  method SanitizeName(u: Unicode, name: string, rules: Rules) returns (stored: string, changed: bool)
    ensures stored == Sanitize(u, name, rules) && (changed <==> stored != name)
  {
    hide IsReserved, TruncateBytes, BaseName;
    var base := BaseName(name);
    var b := "";
    for i := 0 to |base|
      invariant b == Replaced(base, rules)[..i]
    {
      if IsControl(base[i]) {
        b := b + ['_'];
      } else if base[i] in rules.forbidden {
        b := b + ['_'];
      } else {
        b := b + [base[i]];
      }
    }
    assert b == Replaced(base, rules);
    if rules.trimTail { b := TrimTail(b); }
    var reserved := CheckReserved(u, b, rules.reserved);
    if reserved { b := "_" + b; }
    stored := Truncate(b, rules.maxBytes);
    if stored == "" || stored == "." || stored == ".." { stored := "unnamed"; }
    changed := stored != name;
  }
}
