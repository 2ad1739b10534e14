/**
Where an incoming file goes: inside the receive folder, under a free name.

A path is the list of its components below the file system's root.
*/
module Naming {
  import opened Common
  import opened Platform

  type Path = seq<string>

  const MAX_COLLISION_ATTEMPTS: nat := 1000

  // ------------------------------------------------------------------- paths

  /** Joining one component, which cleans the result. */
  function Join(dir: Path, part: string): Path {
    if part == "" || part == "." then dir
    else if part == ".." then (if |dir| == 0 then dir else dir[..|dir| - 1])
    else dir + [part]
  }

  function Shared(a: Path, b: Path): (n: nat)
    ensures n <= |a| && n <= |b| && a[..n] == b[..n]
    ensures n < |a| && n < |b| ==> a[n] != b[n]
  {
    if |a| == 0 || |b| == 0 || a[0] != b[0] then 0 else 1 + Shared(a[1..], b[1..])
  }

  /** The way from `parent` to `child`: up to the common part, then down. */
  function Rel(parent: Path, child: Path): Path {
    var n := Shared(parent, child);
    seq(|parent| - n, _ => "..") + child[n..]
  }

  predicate Within(child: Path, parent: Path) {
    var rel := Rel(parent, child);
    |rel| == 0 || rel[0] != ".."
  }

  predicate NoDots(path: Path) {
    forall i :: 0 <= i < |path| ==> !Hopeless(path[i])
  }

  /** The check on the final path means what it says. */
  lemma WithinMeansBelow(child: Path, parent: Path)
    requires NoDots(child)
    ensures Within(child, parent) <==> parent <= child
  {
  }

  /** Of all components that could be joined to the root, only ".." leaves it, and the check
  sees that; an empty one and "." stay where they are. */
  lemma OnlyDotsEscape(root: Path, part: string)
    requires NoDots(root)
    ensures Within(Join(root, part), root) <==> part != ".." || root == []
    ensures part in {"", "."} ==> Join(root, part) == root
    ensures part == ".." && root != [] ==> Join(root, part) + [root[|root| - 1]] == root
    ensures part !in {"", ".", ".."} ==> Join(root, part) == root + [part]
  {
    WithinMeansBelow(Join(root, part), root);
  }

  // --------------------------------------------------------------- directory

  function SkipSeparators(s: string): (r: string)
    ensures |r| <= |s| && (|r| > 0 ==> !IsSeparator(r[0]))
  {
    if |s| > 0 && IsSeparator(s[0]) then SkipSeparators(s[1..]) else s
  }

  function FieldEnd(s: string): (n: nat)
    ensures n <= |s| && (|s| > 0 && !IsSeparator(s[0]) ==> n > 0)
    ensures forall i :: 0 <= i < n ==> !IsSeparator(s[i])
  {
    if |s| == 0 || IsSeparator(s[0]) then 0 else 1 + FieldEnd(s[1..])
  }

  /** The non-empty parts between separators of either kind. */
  function Fields(s: string): (parts: seq<string>)
    decreases |s|
  {
    var t := SkipSeparators(s);
    if |t| == 0 then [] else [t[..FieldEnd(t)]] + Fields(t[FieldEnd(t)..])
  }

  /** The fields of a path are its parts: separators of either kind stand between them,
  in any number, before them and after them. These laws determine every path's fields. */
  lemma FieldsAreTheParts(part: string, c: char, rest: string)
    requires part != "" && c in {'/', '\\'} && forall i :: 0 <= i < |part| ==> part[i] !in {'/', '\\'}
    ensures Fields("") == [] && Fields([c] + rest) == Fields(rest)
    ensures Fields(part) == [part] && Fields(part + [c] + rest) == [part] + Fields(rest)
  {
    PartEnds(part, "");
    assert part + "" == part && part[..|part|] == part && part[|part|..] == "";
    PartEnds(part, [c] + rest);
    assert part + [c] + rest == part + ([c] + rest);
    assert (part + ([c] + rest))[..|part|] == part && (part + ([c] + rest))[|part|..] == [c] + rest;
    assert ([c] + rest)[1..] == rest;
  }

  lemma {:induction false} PartEnds(part: string, rest: string)
    requires forall i :: 0 <= i < |part| ==> !IsSeparator(part[i])
    requires rest != "" ==> IsSeparator(rest[0])
    ensures FieldEnd(part + rest) == |part|
  {
    if part == "" {
      assert part + rest == rest;
    } else {
      assert (part + rest)[1..] == part[1..] + rest;
      PartEnds(part[1..], rest);
    }
  }

  predicate IsDots(part: string) {
    part == "." || part == ".."
  }

  /** The components that the parts of a relative path add. */
  function Components(u: Unicode, parts: seq<string>, rules: Rules): Path {
    if |parts| == 0 then []
    else
      var rest := Components(u, parts[..|parts| - 1], rules);
      var part := parts[|parts| - 1];
      if IsDots(part) then rest else rest + [Sanitize(u, part, rules)]
  }

  predicate Altered(u: Unicode, parts: seq<string>, rules: Rules) {
    exists i :: 0 <= i < |parts| && (IsDots(parts[i]) || Sanitize(u, parts[i], rules) != parts[i])
  }

  predicate Safe(part: string, rules: Rules) {
    Clean(part, rules) && !Hopeless(part) && ByteLen(part) <= rules.maxBytes
  }

  predicate AllSafe(path: Path, rules: Rules) {
    forall i :: 0 <= i < |path| ==> Safe(path[i], rules)
  }

  /** Every component is safe and clean, whatever the parts were. */
  lemma {:induction false} ComponentsAreSafe(u: Unicode, parts: seq<string>, rules: Rules)
    requires Usable(rules)
    ensures AllSafe(Components(u, parts, rules), rules)
  {
    hide Sanitize, Clean, Hopeless, ByteLen;
    if |parts| > 0 {
      ComponentsAreSafe(u, parts[..|parts| - 1], rules);
      SanitizeIsSafe(u, parts[|parts| - 1], rules);
    }
  }

  /** Parts that are "." or ".." add no component, wherever they stand. */
  lemma {:induction false} DotsAreDropped(u: Unicode, parts: seq<string>, dots: string, more: seq<string>, rules: Rules)
    requires dots in {".", ".."}
    ensures Components(u, parts + [dots] + more, rules) == Components(u, parts + more, rules)
    decreases |more|
  {
    hide Sanitize;
    if more == [] {
      assert parts + [dots] + more == parts + [dots] && parts + more == parts;
      assert (parts + [dots])[..|parts|] == parts;
    } else {
      var n := |more| - 1;
      assert (parts + [dots] + more)[..|parts| + 1 + n] == parts + [dots] + more[..n];
      assert (parts + more)[..|parts| + n] == parts + more[..n];
      DotsAreDropped(u, parts, dots, more[..n], rules);
    }
  }

  /** The other parts are the components, in their order and each cleaned. */
  lemma {:induction false} PartsAreCleaned(u: Unicode, parts: seq<string>, rules: Rules)
    requires forall i :: 0 <= i < |parts| ==> parts[i] !in {".", ".."}
    ensures |Components(u, parts, rules)| == |parts|
    ensures forall i :: 0 <= i < |parts| ==> Components(u, parts, rules)[i] == Sanitize(u, parts[i], rules)
  {
    hide Sanitize;
    if parts != [] { PartsAreCleaned(u, parts[..|parts| - 1], rules); }
  }

  lemma BelowIsWithin(root: Path, more: Path)
    requires NoDots(root) && NoDots(more)
    ensures Within(root + more, root)
  {
    WithinMeansBelow(root + more, root);
  }

  datatype Directory = Directory(dir: Path, sanitized: bool) | DirectoryEscapes

  method ResolveDirectory(u: Unicode, root: Path, relative: string, rules: Rules) returns (r: Directory)
    requires Usable(rules) && NoDots(root)
    ensures r == Directory(root + Components(u, Fields(relative), rules), Altered(u, Fields(relative), rules))
  {
    hide Sanitize, Hopeless, Within, Clean;
    var dir, sanitized := root, false;
    if relative == "" {
      assert root + Components(u, Fields(relative), rules) == root;
      return Directory(dir, false);
    }
    var parts := Fields(relative);
    for k := 0 to |parts|
      invariant dir == root + Components(u, parts[..k], rules)
      invariant sanitized <==> Altered(u, parts[..k], rules)
    {
      var part := parts[k];
      ghost var was := sanitized;
      AlteredStep(u, parts, k, rules);
      assert parts[..k + 1][..k] == parts[..k];
      if IsDots(part) {
        sanitized := true;
      } else {
        var clean, changed := SanitizeName(u, part, rules);
        if changed { sanitized := true; }
        SanitizeIsSafe(u, part, rules);
        SafeJoins(dir, clean);
        dir := Join(dir, clean);
      }
    }
    assert parts[..|parts|] == parts;
    ComponentsAreSafe(u, parts, rules);
    BelowIsWithin(root, Components(u, parts, rules));
    if !Within(dir, root) { return DirectoryEscapes; }
    r := Directory(dir, sanitized);
  }

  lemma SafeJoins(dir: Path, part: string)
    requires !Hopeless(part)
    ensures Join(dir, part) == dir + [part]
  {
  }

  lemma AlteredStep(u: Unicode, parts: seq<string>, k: nat, rules: Rules)
    requires k < |parts|
    ensures Altered(u, parts[..k + 1], rules)
            <==> Altered(u, parts[..k], rules) || IsDots(parts[k]) || Sanitize(u, parts[k], rules) != parts[k]
  {
    hide Sanitize;
    var a, b := parts[..k], parts[..k + 1];
    if i :| 0 <= i < |a| && (IsDots(a[i]) || Sanitize(u, a[i], rules) != a[i]) {
      assert b[i] == a[i];
    }
    if i :| 0 <= i < |b| && (IsDots(b[i]) || Sanitize(u, b[i], rules) != b[i]) {
      assert i < k ==> a[i] == b[i];
    }
    assert b[k] == parts[k];
  }

  // -------------------------------------------------------------- free names

  predicate NameTaken(u: Unicode, existing: seq<string>, candidate: string, rules: Rules) {
    exists i :: 0 <= i < |existing| && EqualNames(u, existing[i], candidate, rules)
  }

  /** The attempts whose name is taken, up to a bound. */
  ghost function Taken(u: Unicode, existing: seq<string>, name: string, rules: Rules, bound: nat): set<nat> {
    set n: nat | 1 <= n <= bound && NameTaken(u, existing, CollisionName(name, n), rules)
  }

  /** Each existing name takes at most one alternative. */
  lemma {:induction false} EachTakesOne(u: Unicode, existing: seq<string>, name: string, rules: Rules, bound: nat)
    requires Sane(u)
    ensures |Taken(u, existing, name, rules, bound)| <= |existing|
  {
    hide EqualNames, CollisionName, Sane;
    var all := Taken(u, existing, name, rules, bound);
    if |existing| == 0 {
      assert all == {};
    } else {
      var n := |existing| - 1;
      var rest, last := existing[..n], existing[n];
      var some := Taken(u, rest, name, rules, bound);
      EachTakesOne(u, rest, name, rules, bound);
      var extra := all - some;
      forall x, y | x in extra && y in extra ensures x == y {
        TakenByLast(u, existing, CollisionName(name, x), rules);
        TakenByLast(u, existing, CollisionName(name, y), rules);
        SameTaker(u, last, name, x, y, rules);
      }
      AtMostOne(extra);
      TakenGrows(u, existing, name, rules, bound);
      assert all == some + extra;
    }
  }

  lemma TakenByLast(u: Unicode, existing: seq<string>, c: string, rules: Rules)
    requires |existing| > 0 && NameTaken(u, existing, c, rules)
    requires !NameTaken(u, existing[..|existing| - 1], c, rules)
    ensures EqualNames(u, existing[|existing| - 1], c, rules)
  {
  }

  lemma TakenGrows(u: Unicode, existing: seq<string>, name: string, rules: Rules, bound: nat)
    requires |existing| > 0
    ensures Taken(u, existing[..|existing| - 1], name, rules, bound) <= Taken(u, existing, name, rules, bound)
  {
  }

  lemma SameTaker(u: Unicode, taker: string, name: string, x: nat, y: nat, rules: Rules)
    requires Sane(u) && x >= 1 && y >= 1
    requires EqualNames(u, taker, CollisionName(name, x), rules) && EqualNames(u, taker, CollisionName(name, y), rules)
    ensures x == y
  {
    var a, b := CollisionName(name, x), CollisionName(name, y);
    EqualNamesIsAnEquivalence(u, taker, a, taker, rules);
    EqualNamesIsAnEquivalence(u, taker, b, taker, rules);
    EqualNamesIsAnEquivalence(u, a, taker, b, rules);
    EqualNamesIsAnEquivalence(u, b, taker, a, rules);
    if x < y { AlternativesDiffer(u, name, x, y, rules); }
    if y < x { AlternativesDiffer(u, name, y, x, rules); }
  }

  lemma AtMostOne(s: set<nat>)
    requires forall x, y :: x in s && y in s ==> x == y
    ensures |s| <= 1
  {
    if s != {} {
      var x :| x in s;
      assert s == {x};
    }
  }

  lemma {:induction false} UpTo(bound: nat, s: set<nat>)
    requires forall n :: n in s <==> 1 <= n <= bound
    ensures |s| == bound
  {
    if bound == 0 {
      assert s == {};
    } else {
      UpTo(bound - 1, s - {bound});
    }
  }

  /** Fewer names than attempts leave one attempt free. */
  lemma SomeAttemptIsFree(u: Unicode, existing: seq<string>, name: string, rules: Rules, bound: nat)
    requires Sane(u) && |existing| < bound
    ensures exists n :: 1 <= n <= bound && !NameTaken(u, existing, CollisionName(name, n), rules)
  {
    hide NameTaken, CollisionName, Sane;
    EachTakesOne(u, existing, name, rules, bound);
    if forall n :: 1 <= n <= bound ==> NameTaken(u, existing, CollisionName(name, n), rules) {
      UpTo(bound, Taken(u, existing, name, rules, bound));
    }
  }

  // ------------------------------------------------------------------ resolve

  datatype Resolution = Resolution(path: Path, storedName: string, renamed: bool,
                                   sanitizedFrom: string, collidedWith: string)

  datatype Outcome = Placed(r: Resolution) | NoFreeName | Escapes | ReadError

  method IsTaken(u: Unicode, existing: seq<string>, candidate: string, rules: Rules) returns (taken: bool)
    ensures taken <==> NameTaken(u, existing, candidate, rules)
  {
    for i := 0 to |existing|
      invariant forall j :: 0 <= j < i ==> !EqualNames(u, existing[j], candidate, rules)
    {
      if EqualNames(u, existing[i], candidate, rules) { return true; }
    }
    taken := false;
  }

  /** The attempts below `n` are all taken. */
  ghost predicate AllTaken(u: Unicode, existing: seq<string>, name: string, rules: Rules, n: nat) {
    forall k :: 1 <= k < n ==> NameTaken(u, existing, CollisionName(name, k), rules)
  }

  /** What `Resolve` promises about a placement: strictly below the root, in the
  directory named by the cleaned relative path, under the first free alternative
  of the cleaned name, with everything that changed reported. */
  ghost predicate PlacedRight(u: Unicode, root: Path, relative: string, original: string, rules: Rules,
                              existing: seq<string>, r: Resolution) {
    var more := Components(u, Fields(relative), rules);
    var stored := Sanitize(u, original, rules);
    && r.path == root + more + [r.storedName] && root < r.path && NoDots(r.path)
    && Clean(r.storedName, rules)
    && !NameTaken(u, existing, r.storedName, rules)
    && (exists n :: 1 <= n <= MAX_COLLISION_ATTEMPTS && r.storedName == CollisionName(stored, n)
                    && AllTaken(u, existing, stored, rules, n))
    && r.sanitizedFrom == (if stored != original then original else "")
    && r.collidedWith == (if r.storedName != stored then stored else "")
    && (r.renamed <==> stored != original || Altered(u, Fields(relative), rules) || r.storedName != stored)
  }

  /** Two names that differ only in case, by the library's classes. */
  predicate SameButForCase(u: Unicode, a: string, b: string) {
    |a| == |b| && forall i :: 0 <= i < |a| ==> u.fold(a[i]) == u.fold(b[i])
  }

  /** What a placed name is to the names that are there. On Linux it is none of them, and
  the cleaned name itself if that is none of them. On Windows it differs from each in its
  length or in a letter, case aside, and it is the cleaned name exactly when that does. */
  ghost predicate Beside(u: Unicode, existing: seq<string>, stored: string, name: string, os: OS) {
    match os
    case Linux => name !in existing && (name == stored <==> stored !in existing)
    case Windows =>
      && (forall i :: 0 <= i < |existing| ==>
            |existing[i]| != |name| || exists k :: 0 <= k < |name| && u.fold(existing[i][k]) != u.fold(name[k]))
      && (name == stored <==> forall i :: 0 <= i < |existing| ==> !SameButForCase(u, existing[i], stored))
  }

  lemma PlacedBesideOthers(u: Unicode, root: Path, relative: string, original: string, os: OS,
                           existing: seq<string>, r: Resolution)
    requires PlacedRight(u, root, relative, original, RulesFor(os), existing, r)
    ensures Beside(u, existing, Sanitize(u, original, RulesFor(os)), r.storedName, os)
  {
    hide Sanitize, Fields, Components, Altered, Clean, Hopeless;
    var stored, rules := Sanitize(u, original, RulesFor(os)), RulesFor(os);
    var n :| 1 <= n <= MAX_COLLISION_ATTEMPTS && r.storedName == CollisionName(stored, n)
             && AllTaken(u, existing, stored, rules, n);
    TakenOn(u, existing, r.storedName, os);
    TakenOn(u, existing, stored, os);
    if n > 1 { assert CollisionName(stored, 1) == stored && NameTaken(u, existing, CollisionName(stored, 1), rules); }
    hide NameTaken, CollisionName, AllTaken;
    if os == Windows {
      forall i | 0 <= i < |existing| && |existing[i]| == |r.storedName|
        ensures exists k :: 0 <= k < |r.storedName| && u.fold(existing[i][k]) != u.fold(r.storedName[k])
      {
        assert !SameButForCase(u, existing[i], r.storedName);
      }
    }
  }

  /** The case rule of each system. */
  lemma TakenOn(u: Unicode, existing: seq<string>, name: string, os: OS)
    ensures os == Linux ==> (NameTaken(u, existing, name, RulesFor(os)) <==> name in existing)
    ensures os == Windows ==>
              (NameTaken(u, existing, name, RulesFor(os)) <==>
                exists i :: 0 <= i < |existing| && SameButForCase(u, existing[i], name))
  {
    if os == Windows {
      assert forall i :: 0 <= i < |existing| ==>
          (EqualNames(u, existing[i], name, RulesFor(os)) <==> SameButForCase(u, existing[i], name));
    } else if name in existing {
      var i :| 0 <= i < |existing| && existing[i] == name;
      assert EqualNames(u, existing[i], name, RulesFor(os));
    }
  }

  /** `list` gives the entries of a directory: none when it does not exist, `None`
  when it cannot be read. The final escape check never fails, and a free name is
  found unless all attempts are taken, so always below as many names as attempts. */
  method Resolve(u: Unicode, root: Path, relative: string, original: string, rules: Rules,
                 list: Path -> Option<seq<string>>) returns (o: Outcome)
    requires Usable(rules) && Sane(u) && NoDots(root)
    ensures o != Escapes
    ensures o == ReadError <==> list(root + Components(u, Fields(relative), rules)).None?
    ensures o.Placed? ==>
              var existing := list(root + Components(u, Fields(relative), rules));
              && PlacedRight(u, root, relative, original, rules, existing.value, o.r)
              && forall os :: rules == RulesFor(os) ==>
                   Beside(u, existing.value, Sanitize(u, original, rules), o.r.storedName, os)
    ensures var existing := list(root + Components(u, Fields(relative), rules));
            && (o == NoFreeName <==>
                  existing.Some?
                  && AllTaken(u, existing.value, Sanitize(u, original, rules), rules, MAX_COLLISION_ATTEMPTS + 1))
            && (existing.Some? && |existing.value| < MAX_COLLISION_ATTEMPTS ==> o.Placed?)
  {
    hide Sanitize, NameTaken, CollisionName, Components, Fields, Altered, Clean, Hopeless, Within, Sane, Usable;
    var where := ResolveDirectory(u, root, relative, rules);
    var dir := where.dir;
    var stored, renamed := SanitizeName(u, original, rules);
    var entries := list(dir);
    if entries.None? { return ReadError; }
    var existing := entries.value;

    var candidate := stored;
    var attempt := 1;
    while attempt <= MAX_COLLISION_ATTEMPTS
      invariant 1 <= attempt <= MAX_COLLISION_ATTEMPTS
      invariant AllTaken(u, existing, stored, rules, attempt)
    {
      candidate := CollisionName(stored, attempt);
      var taken := IsTaken(u, existing, candidate, rules);
      if !taken { break; }
      if attempt == MAX_COLLISION_ATTEMPTS {
        SomeAttemptIsFreeUnlessFull(u, existing, stored, rules);
        return NoFreeName;
      }
      attempt := attempt + 1;
    }

    PlacementIsBelow(u, root, relative, original, rules, attempt);
    var path := Join(dir, candidate);
    var resolution := Resolution(path, candidate, renamed || where.sanitized || candidate != stored,
                                 if renamed then original else "", if candidate != stored then stored else "");
    if !Within(path, root) { return Escapes; }
    forall os | rules == RulesFor(os) ensures Beside(u, existing, stored, candidate, os) {
      PlacedBesideOthers(u, root, relative, original, os, existing, resolution);
    }
    o := Placed(resolution);
  }

  lemma SomeAttemptIsFreeUnlessFull(u: Unicode, existing: seq<string>, name: string, rules: Rules)
    requires Sane(u) && AllTaken(u, existing, name, rules, MAX_COLLISION_ATTEMPTS + 1)
    ensures |existing| >= MAX_COLLISION_ATTEMPTS
  {
    hide NameTaken, CollisionName, Sane;
    if |existing| < MAX_COLLISION_ATTEMPTS {
      SomeAttemptIsFree(u, existing, name, rules, MAX_COLLISION_ATTEMPTS);
    }
  }

  /** Every alternative of a cleaned name, joined to a cleaned directory, stays
  strictly below the root: the escape check is never reached with a bad path. */
  lemma PlacementIsBelow(u: Unicode, root: Path, relative: string, original: string, rules: Rules, n: nat)
    requires Usable(rules) && NoDots(root)
    ensures var dir := root + Components(u, Fields(relative), rules);
            var name := CollisionName(Sanitize(u, original, rules), n);
            && Clean(name, rules)
            && Join(dir, name) == dir + [name] && NoDots(dir + [name]) && root < dir + [name]
            && Within(Join(dir, name), root)
  {
    hide Sanitize, CollisionName, Components, Fields, Clean, Hopeless, Within, Usable;
    var more := Components(u, Fields(relative), rules);
    var name := CollisionName(Sanitize(u, original, rules), n);
    ComponentsAreSafe(u, Fields(relative), rules);
    assert AllSafe(more, rules);
    SanitizeIsSafe(u, original, rules);
    AlternativeIsSafe(Sanitize(u, original, rules), n, rules);
    SafeJoins(root + more, name);
    BelowIsWithin(root, more + [name]);
    assert root + (more + [name]) == root + more + [name];
  }

  // ------------------------------------------------ whether the name still fits

  /** How many attempts have names that are at most `spare` bytes longer. */
  function AttemptsWithin(spare: int): nat {
    if spare < 4 then 1 else if spare < 5 then 9 else if spare < 6 then 99 else if spare < 7 then 999
    else MAX_COLLISION_ATTEMPTS
  }

  lemma FitsWithinAttempts(name: string, n: nat, rules: Rules)
    requires Usable(rules) && Safe(name, rules) && 1 <= n <= MAX_COLLISION_ATTEMPTS
    ensures ByteLen(CollisionName(name, n)) <= rules.maxBytes <==> n <= AttemptsWithin(rules.maxBytes - ByteLen(name))
  {
    hide CollisionName, Usable, Decimal, Clean, Hopeless, ByteLen;
    AlternativeIsSafe(name, n, rules);
    DecimalLength(n);
  }

  /** The byte limit covers the cleaned name, not its alternatives. In a given directory
  the placed name keeps to the limit exactly when one of the first attempts is free: as
  many as have names that add no more than the bytes the cleaned name leaves over. */
  lemma PlacedNameFitsExactlyWhen(u: Unicode, root: Path, relative: string, original: string, rules: Rules,
                                  existing: seq<string>, r: Resolution)
    requires Usable(rules) && PlacedRight(u, root, relative, original, rules, existing, r)
    ensures var stored := Sanitize(u, original, rules);
            ByteLen(r.storedName) <= rules.maxBytes <==>
              exists n :: 1 <= n <= AttemptsWithin(rules.maxBytes - ByteLen(stored))
                          && !NameTaken(u, existing, CollisionName(stored, n), rules)
  {
    hide Sanitize, CollisionName, Usable, NameTaken, Components, Fields, Altered, Clean, Hopeless, ByteLen;
    var stored := Sanitize(u, original, rules);
    SanitizeIsSafe(u, original, rules);
    var n :| 1 <= n <= MAX_COLLISION_ATTEMPTS && r.storedName == CollisionName(stored, n)
             && AllTaken(u, existing, stored, rules, n);
    FitsWithinAttempts(stored, n, rules);
  }

  /** The first `count` alternatives of a name. */
  function Alternatives(name: string, count: nat): (names: seq<string>)
    ensures |names| == count && forall i :: 0 <= i < count ==> names[i] == CollisionName(name, i + 1)
  {
    seq(count, i requires 0 <= i < count => CollisionName(name, i + 1))
  }

  lemma AlternativesTakeThemselves(u: Unicode, name: string, count: nat, n: nat, rules: Rules)
    requires Sane(u) && 1 <= n
    ensures NameTaken(u, Alternatives(name, count), CollisionName(name, n), rules) <==> n <= count
  {
    hide CollisionName, EqualNames, Sane;
    var names := Alternatives(name, count);
    var c := CollisionName(name, n);
    if n <= count {
      EqualNamesIsAnEquivalence(u, c, c, c, rules);
      assert EqualNames(u, names[n - 1], c, rules);
    }
    if NameTaken(u, names, c, rules) {
      var i :| 0 <= i < |names| && EqualNames(u, names[i], c, rules);
      if i + 1 < n { AlternativesDiffer(u, name, i + 1, n, rules); }
    }
  }

  /** A name placed among its own first `count` alternatives gets the next one. */
  lemma PlacedNext(u: Unicode, root: Path, relative: string, original: string, rules: Rules, count: nat, r: Resolution)
    requires Sane(u)
    requires PlacedRight(u, root, relative, original, rules, Alternatives(Sanitize(u, original, rules), count), r)
    ensures count < MAX_COLLISION_ATTEMPTS && r.storedName == CollisionName(Sanitize(u, original, rules), count + 1)
  {
    hide Sanitize, CollisionName, NameTaken, Components, Fields, Altered, Clean, Hopeless, Sane, Alternatives;
    var stored := Sanitize(u, original, rules);
    var names := Alternatives(stored, count);
    var n :| 1 <= n <= MAX_COLLISION_ATTEMPTS && r.storedName == CollisionName(stored, n)
             && AllTaken(u, names, stored, rules, n);
    AlternativesTakeThemselves(u, stored, count, n, rules);
    AlternativesTakeThemselves(u, stored, count, count + 1, rules);
    FreeEndsTheSearch(u, names, stored, rules, n, count + 1);
  }

  lemma FreeEndsTheSearch(u: Unicode, existing: seq<string>, name: string, rules: Rules, n: nat, k: nat)
    requires AllTaken(u, existing, name, rules, n) && 1 <= k && !NameTaken(u, existing, CollisionName(name, k), rules)
    ensures n <= k
  {
  }

  /** Every directory with fewer names than attempts leads to a name within the limit. */
  ghost predicate AlwaysFits(u: Unicode, root: Path, relative: string, original: string, rules: Rules) {
    forall existing: seq<string>, r ::
      |existing| < MAX_COLLISION_ATTEMPTS && PlacedRight(u, root, relative, original, rules, existing, r)
      ==> ByteLen(r.storedName) <= rules.maxBytes
  }

  /** Over all directories with fewer names than attempts, the placed name always keeps
  to the limit exactly when the cleaned name leaves seven bytes over. */
  lemma AlwaysFitsExactlyWhen(u: Unicode, root: Path, relative: string, original: string, rules: Rules)
    requires Usable(rules) && Sane(u) && NoDots(root)
    ensures AlwaysFits(u, root, relative, original, rules)
            <==> ByteLen(Sanitize(u, original, rules)) + 7 <= rules.maxBytes
  {
    hide Sanitize, CollisionName, NameTaken, Sane, Usable, ByteLen, Alternatives, PlacedRight;
    var stored := Sanitize(u, original, rules);
    SanitizeIsSafe(u, original, rules);
    if ByteLen(stored) + 7 <= rules.maxBytes {
      forall existing: seq<string>, r | |existing| < MAX_COLLISION_ATTEMPTS
          && PlacedRight(u, root, relative, original, rules, existing, r)
        ensures ByteLen(r.storedName) <= rules.maxBytes
      {
        PlacedNameFitsExactlyWhen(u, root, relative, original, rules, existing, r);
        SomeAttemptIsFree(u, existing, stored, rules, MAX_COLLISION_ATTEMPTS);
      }
    } else {
      var names := Alternatives(stored, MAX_COLLISION_ATTEMPTS - 1);
      var r := PlacementOfLast(u, root, relative, original, rules);
      PlacedNext(u, root, relative, original, rules, MAX_COLLISION_ATTEMPTS - 1, r);
      FitsWithinAttempts(stored, MAX_COLLISION_ATTEMPTS, rules);
      LastOfMany(stored);
    }
  }

  lemma LastOfMany(stored: string)
    ensures |Alternatives(stored, MAX_COLLISION_ATTEMPTS - 1)| < MAX_COLLISION_ATTEMPTS
  {
  }

  /** The placement among 999 alternatives: the thousandth is free. */
  lemma PlacementOfLast(u: Unicode, root: Path, relative: string, original: string, rules: Rules)
    returns (r: Resolution)
    requires Usable(rules) && Sane(u) && NoDots(root)
    ensures PlacedRight(u, root, relative, original, rules,
                        Alternatives(Sanitize(u, original, rules), MAX_COLLISION_ATTEMPTS - 1), r)
  {
    r := PlacementAfter(u, root, relative, original, rules, MAX_COLLISION_ATTEMPTS - 1);
  }

  lemma PlacementAfter(u: Unicode, root: Path, relative: string, original: string, rules: Rules, count: nat)
    returns (r: Resolution)
    requires Usable(rules) && Sane(u) && NoDots(root) && count < MAX_COLLISION_ATTEMPTS
    ensures PlacedRight(u, root, relative, original, rules, Alternatives(Sanitize(u, original, rules), count), r)
  {
    hide Sanitize, CollisionName, NameTaken, Components, Fields, Altered, Clean, Hopeless, Sane, Usable, Alternatives;
    var stored := Sanitize(u, original, rules);
    var more := Components(u, Fields(relative), rules);
    var name := CollisionName(stored, count + 1);
    PlacementIsBelow(u, root, relative, original, rules, count + 1);
    forall k | 1 <= k <= count + 1
      ensures NameTaken(u, Alternatives(stored, count), CollisionName(stored, k), rules) <==> k <= count
    {
      AlternativesTakeThemselves(u, stored, count, k, rules);
    }
    r := Resolution(root + more + [name], name,
                    stored != original || Altered(u, Fields(relative), rules) || name != stored,
                    if stored != original then original else "", if name != stored then stored else "");
    assert AllTaken(u, Alternatives(stored, count), stored, rules, count + 1);
  }

  /** A name of exactly the limit, already in the directory under the Linux rules, is
  placed under a name of four bytes more. */
  lemma FullNameOverflows(u: Unicode, root: Path, name: string, r: Resolution)
    requires Sane(u) && NoDots(root) && Legal(u, name, RulesFor(Linux)) && ByteLen(name) == 255
    requires PlacedRight(u, root, "", name, RulesFor(Linux), [name], r)
    ensures ByteLen(r.storedName) == 259
  {
    hide Sanitize, CollisionName, NameTaken, Components, Fields, Altered, Clean, Hopeless, Sane, Decimal, Usable,
         PlacedRight, Legal, ByteLen;
    BothRuleSetsAreUsable(Linux);
    UnchangedExactlyWhenLegal(u, name, RulesFor(Linux));
    SanitizeIsSafe(u, name, RulesFor(Linux));
    OneAlternative(name);
    PlacedNext(u, root, "", name, RulesFor(Linux), 1, r);
    AlternativeIsSafe(name, 2, RulesFor(Linux));
    DecimalLength(2);
  }

  lemma OneAlternative(name: string)
    ensures Alternatives(name, 1) == [name]
  {
  }

  /** There are such names, and such placements of them. */
  lemma FullNamesExist(u: Unicode, root: Path) returns (name: string, r: Resolution)
    requires Sane(u) && NoDots(root)
    ensures Legal(u, name, RulesFor(Linux)) && ByteLen(name) == 255
    ensures PlacedRight(u, root, "", name, RulesFor(Linux), [name], r)
  {
    hide PlacedRight, Sane, Legal, ByteLen, Alternatives, Sanitize;
    name := seq(255, _ => 'a');
    AsciiLen(name);
    LettersAreLegal(u, name);
    BothRuleSetsAreUsable(Linux);
    UnchangedExactlyWhenLegal(u, name, RulesFor(Linux));
    OneAlternative(name);
    r := PlacementAfter(u, root, "", name, RulesFor(Linux), 1);
  }

  lemma LettersAreLegal(u: Unicode, name: string)
    requires name != "" && (forall i :: 0 <= i < |name| ==> name[i] == 'a') && ByteLen(name) <= 255
    ensures Legal(u, name, RulesFor(Linux))
  {
    hide IsReserved, ByteLen, Refused, IsSeparator, Hopeless, Clean, RulesFor;
    var rules := RulesFor(Linux);
    NothingIsReserved(u, name);
    LetterIsAccepted();
    assert name[0] == 'a';
    LettersAreClean(name, rules);
  }

  lemma LettersAreClean(name: string, rules: Rules)
    requires name != "" && forall i :: 0 <= i < |name| ==> name[i] == 'a'
    requires !Refused('a', rules) && !IsSeparator('a')
    ensures Clean(name, rules) && !Hopeless(name)
  {
    hide Refused, IsSeparator;
    assert name[0] != '.';
  }

  lemma LetterIsAccepted()
    ensures var rules := RulesFor(Linux);
            !Refused('a', rules) && !IsSeparator('a') && !rules.trimTail && rules.maxBytes == 255
  {
  }

  lemma NothingIsReserved(u: Unicode, name: string)
    ensures !IsReserved(u, name, RulesFor(Linux).reserved)
  {
  }
}
