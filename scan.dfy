/** The two text scanners of init.go, env.go and parser.go: the
    command-line switch scanner, which init.go (`Args`), env.go
    (`Options.parse`) and parser.go (`Parser.Do`) each carry a verbatim
    copy of, and the ini-style conf-line reader, which only init.go
    (`Conf`) and parser.go (`Parser.Do`) carry. */
module Scan {
  import opened GoText
  import opened Fields

  // ---------------------------------------------------------------------
  // Command-line switches: -k v, -k=v, -k:v

  /** What a dash-prefixed argument says once its dashes are stripped:
      a key joined to its value by `=` or `:`, or a bare key. */
  datatype Switch = Joined(key: string, value: string) | Bare(key: string)

  lemma TrimLeftKeeps(s: string, c: char, d: char)
    requires d != c
    ensures d in s <==> d in TrimLeftChar(s, c)
  {
    var r := TrimLeftChar(s, c);
    assert s == s[..|s| - |r|] + r;
    var dashes := s[..|s| - |r|];
    assert forall k :: 0 <= k < |dashes| ==> dashes[k] != d;
  }

  /** The switch an argument spells once its leading dashes are gone. */
  function ParseSwitch(arg: string): Switch {
    var key := TrimLeftChar(arg, '-');
    if '=' in key then
      var kv := SplitFirst(key, '=');
      Joined(kv.0, kv.1)
    else if ':' in key then
      var kv := SplitFirst(key, ':');
      Joined(kv.0, kv.1)
    else Bare(key)
  }

  /** All leading dashes are stripped; `=` is looked for before `:`, and the
      split is at the first occurrence of the separator chosen, so the key
      and value rebuild the argument and the key never holds that separator. */
  lemma ParseSwitchSplits(arg: string)
    ensures ParseSwitch(arg).Joined? <==> ('=' in arg || ':' in arg)
    ensures ParseSwitch(arg).Bare? ==> ParseSwitch(arg).key == TrimLeftChar(arg, '-')
    ensures ParseSwitch(arg).Joined? ==>
      TrimLeftChar(arg, '-') ==
      ParseSwitch(arg).key + [if '=' in arg then '=' else ':'] + ParseSwitch(arg).value
    ensures '=' in arg ==> '=' !in ParseSwitch(arg).key
    ensures '=' !in arg && ':' in arg ==> ':' !in ParseSwitch(arg).key
  {
    TrimLeftKeeps(arg, '-', '=');
    TrimLeftKeeps(arg, '-', ':');
  }

  /** The map the switch scanner builds from `args`, starting from `m`:
      `-k=v` and `-k:v` append `v` to the value of `k`; a bare `-k`
      followed by a non-dash argument sets `k` to it and consumes it;
      a bare `-k` followed by a dash argument or by nothing records
      nothing and consumes nothing; other arguments are passed over. */
  function Switches(args: seq<string>, m: map<string, string>): map<string, string>
    decreases |args|
  {
    if args == [] then m
    else if !HasPrefix(args[0], "-") then Switches(args[1..], m)
    else match ParseSwitch(args[0])
      case Joined(k, v) => Switches(args[1..], m[k := Lookup(m, k) + v])
      case Bare(k) =>
        if |args| > 1 && !HasPrefix(args[1], "-") then Switches(args[2..], m[k := args[1]])
        else Switches(args[1..], m)
  }

  function Rest(args: seq<string>, i: nat): seq<string> {
    if i <= |args| then args[i..] else []
  }

  /** The scanning loop of init.go `Args`, env.go `parse` and parser.go
      `Do`, with its `i++`/`i--` look-ahead over the argument index. */
  method ScanSwitches(args: seq<string>, m0: map<string, string>) returns (m: map<string, string>)
    ensures m == Switches(args, m0)
  {
    m := m0;
    var i := 0;
    while i < |args|
      invariant 0 <= i <= |args| + 1
      invariant Switches(Rest(args, i), m) == Switches(args, m0)
    {
      assert args[i..][1..] == Rest(args, i + 1);
      if HasPrefix(args[i], "-") {
        var key := TrimLeftChar(args[i], '-');
        TrimLeftKeeps(args[i], '-', '=');
        TrimLeftKeeps(args[i], '-', ':');
        if '=' in key {
          var s := SplitFirst(key, '=');
          m := m[s.0 := Lookup(m, s.0) + s.1];
        } else if ':' in key {
          var s := SplitFirst(key, ':');
          m := m[s.0 := Lookup(m, s.0) + s.1];
        } else {
          i := i + 1;
          if i < |args| {
            if !HasPrefix(args[i], "-") {
              assert args[i - 1..][2..] == Rest(args, i + 1);
              m := m[key := args[i]];
            } else {
              i := i - 1;
            }
          }
        }
      }
      i := i + 1;
    }
  }

  /** Some dash argument of `args` names the key `k`. */
  predicate Names(args: seq<string>, k: string) {
    exists i :: 0 <= i < |args| && HasPrefix(args[i], "-") && ParseSwitch(args[i]).key == k
  }

  /** A key that no switch names keeps its entry, present or absent:
      plain positional arguments never become keys. */
  lemma {:induction false} SwitchesUntouched(args: seq<string>, m: map<string, string>, k: string)
    requires !Names(args, k)
    ensures k in Switches(args, m) <==> k in m
    ensures Lookup(Switches(args, m), k) == Lookup(m, k)
    decreases |args|
  {
    if args != [] {
      assert forall i :: 0 <= i < |args[1..]| ==> args[1..][i] == args[i + 1];
      if HasPrefix(args[0], "-") {
        match ParseSwitch(args[0])
        case Joined(k', v) =>
          SwitchesUntouched(args[1..], m[k' := Lookup(m, k') + v], k);
        case Bare(k') =>
          if |args| > 1 && !HasPrefix(args[1], "-") {
            assert forall i :: 0 <= i < |args[2..]| ==> args[2..][i] == args[i + 2];
            SwitchesUntouched(args[2..], m[k' := args[1]], k);
          } else {
            SwitchesUntouched(args[1..], m, k);
          }
      } else {
        SwitchesUntouched(args[1..], m, k);
      }
    }
  }

  /** Entries already in the map are never removed. */
  lemma {:induction false} SwitchesKeepKeys(args: seq<string>, m: map<string, string>)
    ensures m.Keys <= Switches(args, m).Keys
    decreases |args|
  {
    if args != [] {
      if !HasPrefix(args[0], "-") {
        SwitchesKeepKeys(args[1..], m);
      } else {
        match ParseSwitch(args[0])
        case Joined(k, v) =>
          SwitchesKeepKeys(args[1..], m[k := Lookup(m, k) + v]);
        case Bare(k) =>
          if |args| > 1 && !HasPrefix(args[1], "-") {
            SwitchesKeepKeys(args[2..], m[k := args[1]]);
          } else {
            SwitchesKeepKeys(args[1..], m);
          }
      }
    }
  }

  /** An argument that is not a switch is passed over. */
  lemma SwitchesSkipPlain(a: string, rest: seq<string>, m: map<string, string>)
    requires !HasPrefix(a, "-")
    ensures Switches([a] + rest, m) == Switches(rest, m)
  {
    assert ([a] + rest)[1..] == rest;
  }

  /** A bare `-k` followed by a non-dash argument `v` leaves `k` set to `v`
      when no later switch names `k`: the assignment overwrites whatever
      `k` held before. */
  lemma BareSwitchSets(a: string, v: string, rest: seq<string>, m: map<string, string>)
    requires HasPrefix(a, "-") && ParseSwitch(a).Bare?
    requires !HasPrefix(v, "-")
    requires !Names(rest, ParseSwitch(a).key)
    ensures ParseSwitch(a).key in Switches([a, v] + rest, m)
    ensures Switches([a, v] + rest, m)[ParseSwitch(a).key] == v
  {
    var args := [a, v] + rest;
    assert args[2..] == rest;
    var k := ParseSwitch(a).key;
    SwitchesUntouched(rest, m[k := v], k);
  }

  /** A bare `-k` followed by a dash argument records nothing and the
      dash argument is scanned in its own right. */
  lemma BareSwitchBeforeDash(a: string, b: string, rest: seq<string>, m: map<string, string>)
    requires HasPrefix(a, "-") && ParseSwitch(a).Bare?
    requires HasPrefix(b, "-")
    ensures Switches([a, b] + rest, m) == Switches([b] + rest, m)
  {
    var tail := [b] + rest;
    assert tail[0] == b;
    SwitchesBareBeforeDash(a, tail, m);
    PairPrefix(a, b, rest);
  }

  lemma PairPrefix(a: string, b: string, rest: seq<string>)
    ensures [a, b] + rest == [a] + ([b] + rest)
  {
  }

  lemma SwitchesBareBeforeDash(a: string, tail: seq<string>, m: map<string, string>)
    requires HasPrefix(a, "-") && ParseSwitch(a).Bare? && tail != [] && HasPrefix(tail[0], "-")
    ensures Switches([a] + tail, m) == Switches(tail, m)
  {
    var args := [a] + tail;
    assert args[0] == a && args[1] == tail[0] && args[1..] == tail;
  }

  /** Every dash argument carries its value after `=` or `:`. */
  predicate AllJoined(args: seq<string>)
    decreases |args|
  {
    args == [] ||
    ((HasPrefix(args[0], "-") ==> ParseSwitch(args[0]).Joined?) && AllJoined(args[1..]))
  }

  /** The values that the `-k=v` / `-k:v` switches of `args` give `k`,
      concatenated in argument order. */
  function JoinedValues(args: seq<string>, k: string): string {
    if args == [] then ""
    else if HasPrefix(args[0], "-") && ParseSwitch(args[0]).Joined? && ParseSwitch(args[0]).key == k
    then ParseSwitch(args[0]).value + JoinedValues(args[1..], k)
    else JoinedValues(args[1..], k)
  }

  /** The value a leading `-k=v` switch leaves in the map. */
  function AfterJoined(m: map<string, string>, sw: Switch): map<string, string>
    requires sw.Joined?
  {
    m[sw.key := Lookup(m, sw.key) + sw.value]
  }

  /** One `-k=v` step: what holds for the rest of the arguments from the
      updated map holds for all of them from the original map. */
  lemma JoinedStep(args: seq<string>, m: map<string, string>, k: string)
    requires args != [] && HasPrefix(args[0], "-") && ParseSwitch(args[0]).Joined?
    requires Lookup(Switches(args[1..], AfterJoined(m, ParseSwitch(args[0]))), k) ==
      Lookup(AfterJoined(m, ParseSwitch(args[0])), k) + JoinedValues(args[1..], k)
    ensures Lookup(Switches(args, m), k) == Lookup(m, k) + JoinedValues(args, k)
  {
    var sw := ParseSwitch(args[0]);
    SwitchesJoined(args, m);
    JoinedValuesStep(args, k);
    AppendAlgebra(m, sw.key, sw.value, k, JoinedValues(args[1..], k));
  }

  lemma AppendAlgebra(m: map<string, string>, key: string, v: string, k: string, rest: string)
    ensures Lookup(m[key := Lookup(m, key) + v], k) + rest ==
      Lookup(m, k) + (if key == k then v + rest else rest)
  {
    if key == k {
      assert Lookup(m, k) + v + rest == Lookup(m, k) + (v + rest);
    }
  }

  lemma SwitchesJoined(args: seq<string>, m: map<string, string>)
    requires args != [] && HasPrefix(args[0], "-") && ParseSwitch(args[0]).Joined?
    ensures Switches(args, m) == Switches(args[1..], AfterJoined(m, ParseSwitch(args[0])))
  {
  }

  lemma JoinedValuesStep(args: seq<string>, k: string)
    requires args != [] && HasPrefix(args[0], "-") && ParseSwitch(args[0]).Joined?
    ensures JoinedValues(args, k) ==
      if ParseSwitch(args[0]).key == k then ParseSwitch(args[0]).value + JoinedValues(args[1..], k)
      else JoinedValues(args[1..], k)
  {
  }

  /** With only `-k=v` / `-k:v` switches, a key ends with its earlier value
      followed by every value given to it, in order: repeated switches
      concatenate rather than replace. */
  lemma {:induction false} SwitchesConcatenate(args: seq<string>, m: map<string, string>, k: string)
    requires AllJoined(args)
    ensures Lookup(Switches(args, m), k) == Lookup(m, k) + JoinedValues(args, k)
    decreases |args|
  {
    if args != [] {
      if !HasPrefix(args[0], "-") {
        SwitchesConcatenate(args[1..], m, k);
      } else {
        SwitchesConcatenate(args[1..], AfterJoined(m, ParseSwitch(args[0])), k);
        JoinedStep(args, m, k);
      }
    }
  }

  // ---------------------------------------------------------------------
  // ini-style conf lines: k=v, k:v, k v

  /** A trimmed line that contributes nothing: empty or a comment. */
  predicate Ignored(s: string) {
    |s| == 0 || HasPrefix(s, "#") || HasPrefix(s, "//")
  }

  /** Separators in the order they are tried. */
  const Separators: seq<char> := ['=', ':', ' ']

  lemma TrimSpaceIdempotent(s: string)
    ensures TrimSpace(TrimSpace(s)) == TrimSpace(s)
  {
    var r := TrimSpace(s);
    if r != [] {
      assert LeadingSpaces(r) == 0;
      assert TrailingSpaces(r) == 0;
      assert r[0..|r|] == r;
    }
  }

  lemma TrimSpaceWithin(s: string, c: char)
    requires c in TrimSpace(s)
    ensures c in s
  {
    var r := TrimSpace(s);
    var k :| 0 <= k < |r| && r[k] == c;
    assert s[LeadingSpaces(s) + k] == c;
  }

  /** The index of the first of `Separators[j..]` that occurs in `s`,
      or `|Separators|` when none does: the `for i := range sep` search. */
  function FirstSeparator(s: string, j: nat): (r: nat)
    requires j <= |Separators|
    ensures j <= r <= |Separators|
    ensures r < |Separators| ==> Separators[r] in s
    decreases |Separators| - j
  {
    if j == |Separators| then j
    else if Separators[j] in s then j
    else FirstSeparator(s, j + 1)
  }

  /** The separator picked is the first of `Separators` the line holds,
      and there is none exactly when the line holds no separator. */
  lemma FirstSeparatorSpec(s: string)
    ensures FirstSeparator(s, 0) == |Separators| <==> forall c :: c in Separators ==> c !in s
    ensures forall q :: 0 <= q < FirstSeparator(s, 0) ==> Separators[q] !in s
  {
    assert Separators[0] == '=' && Separators[1] == ':' && Separators[2] == ' ';
  }

  /** The key and value one conf line contributes: the trimmed line is
      split at the first occurrence of the first separator it contains,
      `=` before `:` before a space, and key and value are trimmed. */
  function ConfLine(line: string): Option<(string, string)> {
    var s := TrimSpace(line);
    if Ignored(s) then None
    else
      var j := FirstSeparator(s, 0);
      if j == |Separators| then None else Some(ConfPair(s, Separators[j]))
  }

  /** `s` split at its first `c`, both halves trimmed. */
  function ConfPair(s: string, c: char): (string, string)
    requires c in s
  {
    var parts := SplitFirst(s, c);
    (TrimSpace(parts.0), TrimSpace(parts.1))
  }

  /** Both halves are trimmed, the key holds no `c`, and nothing in them
      comes from outside the line. */
  lemma ConfPairShape(s: string, c: char)
    requires c in s
    ensures TrimSpace(ConfPair(s, c).0) == ConfPair(s, c).0
    ensures TrimSpace(ConfPair(s, c).1) == ConfPair(s, c).1
    ensures c !in ConfPair(s, c).0
    ensures forall d :: d in ConfPair(s, c).0 + ConfPair(s, c).1 ==> d in s
  {
    var parts := SplitFirst(s, c);
    TrimSpaceIdempotent(parts.0);
    TrimSpaceIdempotent(parts.1);
    var k, v := TrimSpace(parts.0), TrimSpace(parts.1);
    assert c !in k by { if c in k { TrimSpaceWithin(parts.0, c); } }
    forall d | d in k + v ensures d in s {
      if d in k { TrimSpaceWithin(parts.0, d); } else { TrimSpaceWithin(parts.1, d); }
    }
  }

  /** A line yields nothing exactly when, trimmed, it is blank, a comment,
      or holds none of the separators; otherwise key and value come back
      trimmed and the key never holds the separator the split was made at. */
  lemma ConfLineShape(line: string)
    ensures ConfLine(line).None? <==>
      (Ignored(TrimSpace(line)) || forall c :: c in Separators ==> c !in TrimSpace(line))
    ensures ConfLine(line).Some? ==>
      TrimSpace(ConfLine(line).value.0) == ConfLine(line).value.0 &&
      TrimSpace(ConfLine(line).value.1) == ConfLine(line).value.1
    ensures ConfLine(line).Some? && '=' in TrimSpace(line) ==> '=' !in ConfLine(line).value.0
    ensures ConfLine(line).Some? && '=' !in TrimSpace(line) && ':' in TrimSpace(line) ==>
      '=' !in ConfLine(line).value.1 && ':' !in ConfLine(line).value.0
    ensures ConfLine(line).Some? && '=' !in TrimSpace(line) && ':' !in TrimSpace(line) ==>
      '=' !in ConfLine(line).value.0 + ConfLine(line).value.1 &&
      ':' !in ConfLine(line).value.0 + ConfLine(line).value.1
  {
    var s := TrimSpace(line);
    FirstSeparatorSpec(s);
    if !Ignored(s) {
      var j := FirstSeparator(s, 0);
      if j < |Separators| {
        ConfPairShape(s, Separators[j]);
      }
    }
  }

  /** The map after one line: its pair stored, overwriting the key. */
  function ConfStep(m: map<string, string>, line: string): map<string, string> {
    match ConfLine(line)
    case None => m
    case Some(kv) => m[kv.0 := kv.1]
  }

  /** The map after all lines, in order. */
  function ConfLines(lines: seq<string>, m: map<string, string>): map<string, string>
    decreases |lines|
  {
    if lines == [] then m else ConfLines(lines[1..], ConfStep(m, lines[0]))
  }

  /** The line loop of init.go `Conf` and parser.go `Do`: trim, skip blanks
      and comments, then try each separator in turn and stop at the first
      one found. */
  method LoadConfLines(lines: seq<string>, m0: map<string, string>) returns (m: map<string, string>)
    ensures m == ConfLines(lines, m0)
  {
    m := m0;
    var i := 0;
    while i < |lines|
      invariant 0 <= i <= |lines|
      invariant ConfLines(lines[i..], m) == ConfLines(lines, m0)
    {
      assert lines[i..][1..] == lines[i + 1..];
      ghost var before := m;
      var s := TrimSpace(lines[i]);
      if !Ignored(s) {
        var sep := Separators;
        var j := 0;
        while j < |sep|
          invariant 0 <= j <= |sep|
          invariant FirstSeparator(s, j) == FirstSeparator(s, 0)
          invariant m == before
        {
          if sep[j] in s {
            var kv := SplitFirst(s, sep[j]);
            m := m[TrimSpace(kv.0) := TrimSpace(kv.1)];
            break;
          }
          j := j + 1;
        }
      }
      assert m == ConfStep(before, lines[i]);
      i := i + 1;
    }
  }

  /** Reading two batches of lines one after the other is reading them
      together: a later batch (a later file) overwrites an earlier one. */
  lemma {:induction false} ConfLinesAppend(l1: seq<string>, l2: seq<string>, m: map<string, string>)
    ensures ConfLines(l1 + l2, m) == ConfLines(l2, ConfLines(l1, m))
    decreases |l1|
  {
    if l1 != [] {
      assert (l1 + l2)[1..] == l1[1..] + l2;
      ConfLinesAppend(l1[1..], l2, ConfStep(m, l1[0]));
    } else {
      assert l1 + l2 == l2;
    }
  }

  /** Lines only add and overwrite keys: no key is ever dropped, and a
      line that yields a pair leaves its key in the map. */
  lemma {:induction false} ConfLinesKeepKeys(lines: seq<string>, m: map<string, string>)
    ensures m.Keys <= ConfLines(lines, m).Keys
    ensures forall i :: 0 <= i < |lines| && ConfLine(lines[i]).Some? ==> ConfLine(lines[i]).value.0 in ConfLines(lines, m)
    decreases |lines|
  {
    if lines != [] {
      ConfLinesKeepKeys(lines[1..], ConfStep(m, lines[0]));
      assert forall i :: 1 <= i < |lines| ==> lines[i] == lines[1..][i - 1];
    }
  }

  /** The line gives the key `k`. */
  predicate LineSets(line: string, k: string) {
    ConfLine(line).Some? && ConfLine(line).value.0 == k
  }

  /** A key no line gives keeps its entry, present or absent. */
  lemma {:induction false} ConfLinesUntouched(lines: seq<string>, m: map<string, string>, k: string)
    requires forall i :: 0 <= i < |lines| ==> !LineSets(lines[i], k)
    ensures k in ConfLines(lines, m) <==> k in m
    ensures Lookup(ConfLines(lines, m), k) == Lookup(m, k)
    decreases |lines|
  {
    if lines != [] {
      assert forall i :: 0 <= i < |lines[1..]| ==> lines[1..][i] == lines[i + 1];
      ConfLinesUntouched(lines[1..], ConfStep(m, lines[0]), k);
    }
  }

  /** A first line that gives a key no later line gives decides it. */
  lemma ConfFirstLineWins(lines: seq<string>, m: map<string, string>, k: string, v: string)
    requires 0 < |lines| && ConfLine(lines[0]) == Some((k, v))
    requires forall j :: 0 < j < |lines| ==> !LineSets(lines[j], k)
    ensures k in ConfLines(lines, m) && ConfLines(lines, m)[k] == v
  {
    var rest := lines[1..];
    assert ConfLines(lines, m) == ConfLines(rest, m[k := v]);
    assert forall j :: 0 <= j < |rest| ==> rest[j] == lines[j + 1];
    ConfLinesUntouched(rest, m[k := v], k);
  }

  /** The last line that gives a key decides its value. */
  lemma ConfLastLineWins(lines: seq<string>, m: map<string, string>, i: nat, k: string, v: string)
    requires i < |lines| && ConfLine(lines[i]) == Some((k, v))
    requires forall j :: i < j < |lines| ==> !LineSets(lines[j], k)
    ensures k in ConfLines(lines, m) && ConfLines(lines, m)[k] == v
  {
    var before, from := lines[..i], lines[i..];
    assert lines == before + from;
    ConfLinesAppend(before, from, m);
    SuffixSetsNot(lines, i, k);
    ConfFirstLineWins(from, ConfLines(before, m), k, v);
  }

  /** The lines after line `i` that do not set `k`, seen from line `i`. */
  lemma SuffixSetsNot(lines: seq<string>, i: nat, k: string)
    requires i < |lines| && forall j :: i < j < |lines| ==> !LineSets(lines[j], k)
    ensures lines[i..][0] == lines[i]
    ensures forall j :: 0 < j < |lines[i..]| ==> !LineSets(lines[i..][j], k)
  {
    forall j | 0 < j < |lines[i..]|
      ensures !LineSets(lines[i..][j], k)
    {
      assert lines[i..][j] == lines[i + j];
    }
  }



}
