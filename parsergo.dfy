/** parser.go: the `Parser` type, whose `Do` keeps its map `p.m` across
    calls, reads the conf files of every `ConfPath` directory into it, adds
    the switches of `os.Args`, and runs the field merge of the `Overload`
    module with parser.go's skip and panic rules. */
module ParserGo {
  import opened GoText
  import opened Fields
  import opened Scan
  import opened Overload

  /** The map a nil `p.m` is replaced by. */
  function Held(m: Option<map<string, string>>): map<string, string> {
    if m.Some? then m.value else map[]
  }

  /** `<dir>/<name>/<name>.conf` */
  function ConfFile(dir: string, name: string): string {
    JoinPath([dir, name, name + ".conf"])
  }

  /** The lines of the conf file in `dir`, none when it cannot be opened. */
  function FileLines(dir: string, name: string, files: map<string, seq<string>>): seq<string> {
    if ConfFile(dir, name) in files then files[ConfFile(dir, name)] else []
  }

  /** The conf files of `dirs` read into `m`, one after the other. */
  function ConfFiles(dirs: seq<string>, name: string, files: map<string, seq<string>>, m: map<string, string>): map<string, string>
    decreases |dirs|
  {
    if dirs == [] then m
    else ConfFiles(dirs[1..], name, files, ConfLines(FileLines(dirs[0], name, files), m))
  }

  /** The lines of all the files, in directory order. */
  function AllLines(dirs: seq<string>, name: string, files: map<string, seq<string>>): seq<string>
    decreases |dirs|
  {
    if dirs == [] then [] else FileLines(dirs[0], name, files) + AllLines(dirs[1..], name, files)
  }

  /** Reading the files one by one is reading their lines run together, so
      later lines, and lines of later files, overwrite earlier keys. */
  lemma {:induction false} ConfFilesAsLines(dirs: seq<string>, name: string, files: map<string, seq<string>>, m: map<string, string>)
    ensures ConfFiles(dirs, name, files, m) == ConfLines(AllLines(dirs, name, files), m)
    decreases |dirs|
  {
    if dirs != [] {
      var first := FileLines(dirs[0], name, files);
      ConfFilesAsLines(dirs[1..], name, files, ConfLines(first, m));
      ConfLinesAppend(first, AllLines(dirs[1..], name, files), m);
    }
  }

  /** The map `Do` leaves behind: the conf files, then the switches. */
  function DoMap(dirs: seq<string>, osArgs: Argv, files: map<string, seq<string>>, m: map<string, string>): map<string, string> {
    Switches(osArgs, ConfFiles(dirs, Base(osArgs[0]), files, m))
  }

  /** A key that no conf line gives and that only `-k=v` / `-k:v` switches
      name gets their values appended once more by every `Do`: the map
      persists, so the second call repeats them. */
  lemma DoTwiceAppendsTwice(dirs: seq<string>, osArgs: Argv, files: map<string, seq<string>>, m: map<string, string>, k: string)
    requires AllJoined(osArgs)
    requires forall i :: 0 <= i < |AllLines(dirs, Base(osArgs[0]), files)| ==> !LineSets(AllLines(dirs, Base(osArgs[0]), files)[i], k)
    ensures Lookup(DoMap(dirs, osArgs, files, DoMap(dirs, osArgs, files, m)), k) ==
      Lookup(m, k) + JoinedValues(osArgs, k) + JoinedValues(osArgs, k)
  {
    var name := Base(osArgs[0]);
    var once := DoMap(dirs, osArgs, files, m);
    ConfFilesAsLines(dirs, name, files, m);
    ConfLinesUntouched(AllLines(dirs, name, files), m, k);
    SwitchesConcatenate(osArgs, ConfFiles(dirs, name, files, m), k);
    ConfFilesAsLines(dirs, name, files, once);
    ConfLinesUntouched(AllLines(dirs, name, files), once, k);
    SwitchesConcatenate(osArgs, ConfFiles(dirs, name, files, once), k);
  }

  /** Conf values load before the switches: a bare `-k v` right after the
      program name, with no later switch naming `k`, replaces the conf
      value of `k`. */
  lemma ConfThenBareSwitch(dirs: seq<string>, osArgs: Argv, files: map<string, seq<string>>, m: map<string, string>)
    requires |osArgs| >= 3 && !HasPrefix(osArgs[0], "-")
    requires HasPrefix(osArgs[1], "-") && ParseSwitch(osArgs[1]).Bare? && !HasPrefix(osArgs[2], "-")
    requires !Names(osArgs[3..], ParseSwitch(osArgs[1]).key)
    ensures var k := ParseSwitch(osArgs[1]).key;
      k in DoMap(dirs, osArgs, files, m) && DoMap(dirs, osArgs, files, m)[k] == osArgs[2]
  {
    var c := ConfFiles(dirs, Base(osArgs[0]), files, m);
    var tail := [osArgs[1], osArgs[2]] + osArgs[3..];
    assert osArgs == [osArgs[0]] + tail;
    SwitchesSkipPlain(osArgs[0], tail, c);
    BareSwitchSets(osArgs[1], osArgs[2], osArgs[3..], c);
  }


  /** Conf values load before the switches: `-k=v` / `-k:v` switches are
      appended to the conf value of `k`. */
  lemma ConfThenSwitches(dirs: seq<string>, osArgs: Argv, files: map<string, seq<string>>, m: map<string, string>, k: string)
    requires AllJoined(osArgs)
    ensures Lookup(DoMap(dirs, osArgs, files, m), k) ==
      Lookup(ConfFiles(dirs, Base(osArgs[0]), files, m), k) + JoinedValues(osArgs, k)
  {
    SwitchesConcatenate(osArgs, ConfFiles(dirs, Base(osArgs[0]), files, m), k);
  }

  /** The conf-file loop of `Do`: each directory's file read into the map
      in turn, a file that cannot be opened skipped. */
  method LoadConfFiles(dirs: seq<string>, name: string, files: map<string, seq<string>>, m0: map<string, string>)
    returns (m: map<string, string>)
    ensures m == ConfFiles(dirs, name, files, m0)
  {
    m := m0;
    var i := 0;
    while i < |dirs|
      invariant 0 <= i <= |dirs|
      invariant ConfFiles(dirs[i..], name, files, m) == ConfFiles(dirs, name, files, m0)
    {
      assert dirs[i..][1..] == dirs[i + 1..];
      var path := ConfFile(dirs[i], name);
      if path in files {
        m := LoadConfLines(files[path], m);
      } else {
        assert ConfLines([], m) == m;
      }
      i := i + 1;
    }
    assert dirs[i..] == [];
  }

  /** The `Parser` struct. */
  class Parser {
    var confPath: Option<seq<string>>
    var setENV: bool
    var m: Option<map<string, string>>

    /** A `Parser` literal: the exported fields given, the map nil. */
    constructor (confPath: Option<seq<string>>, setENV: bool)
      ensures this.confPath == confPath && this.setENV == setENV && m.None?
    {
      this.confPath := confPath;
      this.setENV := setENV;
      m := None;
    }

    /** The directories `Do` reads: none for a nil `ConfPath`. */
    function Dirs(): seq<string>
      reads this
    {
      if confPath.Some? then confPath.value else []
    }

    /** `Do`: the map is made only when nil; the conf files and the switches
        are added to it; the cfg elements are merged from it. */
    method Do(osArgs: Argv, environ0: map<string, string>, files: map<string, seq<string>>, cfg: seq<Item>)
      returns (items: seq<Item>, environ: map<string, string>, stop: Stop)
      modifies `m
      ensures m == Some(DoMap(Dirs(), osArgs, files, Held(old(m))))
      ensures (items, environ, stop) == ItemsRun(ParserRev, cfg, Ctx(osArgs, m.value, setENV), 0, [], environ0)
    {
      if m.None? {
        m := Some(map[]);
      }
      var acc := LoadConfFiles(Dirs(), Base(osArgs[0]), files, m.value);
      acc := ScanSwitches(osArgs, acc);
      m := Some(acc);
      items, environ, stop := MergeItems(ParserRev, cfg, Ctx(osArgs, acc, setENV), environ0);
    }
  }
}
