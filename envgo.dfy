/** env.go: `Configure` (the options taken from the first cfg element, the
    paths chosen by platform, the version and help exits, the call to
    `parse`, the log banner) and `Options.parse`, whose field merge is the
    `Overload` module's. */
module EnvGo {
  import opened GoText
  import opened Fields
  import opened Scan
  import opened Overload
  import InitGo

  /** The `Options` struct. */
  datatype Options = Options(silent: bool, noHelp: bool, setENV: bool)

  const ZeroOptions := Options(false, false, false)

  /** One element of `cfg`: an `Options` value or pointer, a nil
      `*Options`, or anything else. */
  datatype CfgArg = OptionsArg(opts: Options, byPointer: bool) | NilOptions | ItemArg(item: Item)

  /** An element as the field loops see it: an `Options` that is not first
      is an ordinary struct of three exported bools, and a nil `*Options`
      is what `reflect.Indirect` makes of it: the invalid value, neither a
      struct nor a pointer, on which `Type` and `NumField` panic. */
  function AsItem(arg: CfgArg): (item: Item)
    ensures arg.ItemArg? ==> item == arg.item
    ensures arg.NilOptions? ==> !item.isStruct && !item.pointer && !item.container && item.fields == []
    ensures arg.OptionsArg? ==>
      item.isStruct && item.pointer == arg.byPointer && |item.fields| == 3 &&
      item.fields[0].value == BoolVal(arg.opts.silent) &&
      item.fields[1].value == BoolVal(arg.opts.noHelp) &&
      item.fields[2].value == BoolVal(arg.opts.setENV)
  {
    match arg
    case ItemArg(item) => item
    case NilOptions => Item(false, false, false, [])
    case OptionsArg(o, p) =>
      Item(p, true, false, [Field("Silent", BoolKind, map[], true, BoolVal(o.silent)),
                     Field("NoHelp", BoolKind, map[], true, BoolVal(o.noHelp)),
                     Field("SetENV", BoolKind, map[], true, BoolVal(o.setENV))])
  }

  /** The type switch on `cfg[0]`: an `Options` value or pointer there is
      taken as the options and dropped from `cfg`; a nil `*Options` panics
      when `*c` dereferences it (None); otherwise the options are all false
      and `cfg` is kept whole. */
  function ExtractOptions(cfg: seq<CfgArg>): (r: Option<(Options, seq<Item>)>)
    requires cfg != []
    ensures r.None? <==> cfg[0].NilOptions?
    ensures cfg[0].OptionsArg? ==>
      r.value.0 == cfg[0].opts && |r.value.1| == |cfg| - 1 &&
      forall k :: 0 <= k < |r.value.1| ==> r.value.1[k] == AsItem(cfg[k + 1])
    ensures cfg[0].ItemArg? ==>
      r.value.0 == ZeroOptions && |r.value.1| == |cfg| && forall k :: 0 <= k < |r.value.1| ==> r.value.1[k] == AsItem(cfg[k])
  {
    if cfg[0].NilOptions? then None
    else
      var rest := if cfg[0].OptionsArg? then cfg[1..] else cfg;
      Some((if cfg[0].OptionsArg? then cfg[0].opts else ZeroOptions,
            seq(|rest|, k requires 0 <= k < |rest| => AsItem(rest[k]))))
  }

  /** The four paths `Configure` returns. */
  datatype Paths = Paths(etc: string, srv: string, varDir: string, tmp: string)

  /** The platform switch: the production paths and the program's base
      name on linux, the `_dev` paths and `development` elsewhere. */
  function SelectPaths(goos: string, osArgs: Argv): (r: (Paths, string))
    ensures var root := if goos == "linux" then "/" else "_dev/";
      r.0 == Paths(root + "etc", root + "srv", root + "var", root + "tmp")
    ensures r.1 != [] && (r.1 == "/" || '/' !in r.1)
    ensures goos != "linux" ==> r.1 == "development"
  {
    var root := if goos == "linux" then "/" else "_dev/";
    (Paths(root + "etc", root + "srv", root + "var", root + "tmp"), if goos == "linux" then Base(osArgs[0]) else "development")
  }

  /** The name the help listing shows: the `name` tag, else the lower-case
      field name. */
  function NameTag(f: Field): string {
    if "name" in f.tags then f.tags["name"] else ToLower(f.name)
  }

  /** Whether the help listing reaches the line of this field. */
  predicate Listed(item: Item, f: Field) {
    CanSet(item, f) && NameTag(f) != "" && !("env" in f.tags && f.tags["env"] == "-")
  }

  /** The help listing panics on an element that is not a struct, and on a
      listed field of the element at position `i` whose struct has no field
      `i`: the default and help tags are read from field `i`, the element's
      position, not from the field being listed. */
  predicate HelpPanics(items: seq<Item>) {
    exists i :: 0 <= i < |items| &&
      (!items[i].isStruct ||
       exists j :: 0 <= j < |items[i].fields| && Listed(items[i], items[i].fields[j]) && i >= |items[i].fields|)
  }

  /** The help listing's loops, of which only the panics are kept. */
  method HelpListing(opts: Options, items: seq<Item>) returns (panics: bool)
    ensures panics <==> !opts.noHelp && HelpPanics(items)
  {
    if opts.noHelp {
      return false;
    }
    var i := 0;
    while i < |items|
      invariant 0 <= i <= |items|
      invariant forall q :: 0 <= q < i ==>
        items[q].isStruct && forall j :: 0 <= j < |items[q].fields| ==> !(Listed(items[q], items[q].fields[j]) && q >= |items[q].fields|)
    {
      if !items[i].isStruct {
        return true;
      }
      var j := 0;
      while j < |items[i].fields|
        invariant 0 <= j <= |items[i].fields|
        invariant forall p :: 0 <= p < j ==> !(Listed(items[i], items[i].fields[p]) && i >= |items[i].fields|)
      {
        if Listed(items[i], items[i].fields[j]) && i >= |items[i].fields| {
          return true;
        }
        j := j + 1;
      }
      i := i + 1;
    }
    return false;
  }

  /** The log banner pads with `strings.Repeat`, which panics on a negative
      count: a base name over 27 bytes, or a version or build over 31. */
  predicate LogPanics(opts: Options, arg0: string, version: string, build: string) {
    !opts.silent && (ByteLen(Base(arg0)) > 27 || ByteLen(version) > 31 || ByteLen(build) > 31)
  }

  /** `Options.parse`: the switch map from `os.Args`, then the field merge
      over every element with the `SetENV` option. */
  method Parse(opts: Options, items: seq<Item>, osArgs: Argv, environ0: map<string, string>)
    returns (result: seq<Item>, environ: map<string, string>, stop: Stop)
    ensures (result, environ, stop) == ItemsRun(EnvRev, items, Ctx(osArgs, Switches(osArgs, map[]), opts.setENV), 0, [], environ0)
  {
    var m := ScanSwitches(osArgs, map[]);
    result, environ, stop := MergeItems(EnvRev, items, Ctx(osArgs, m, opts.setENV), environ0);
  }

  /** `Configure`. With an empty `cfg` the read of `cfg[0]` panics (as
      `NewEnv()` without arguments does), and so does a nil `*Options`
      there, before the named result is set. Otherwise the paths are fixed before
      anything else; `version` and `help` as the first argument end the run
      with exit code 0 unless the help listing panics; otherwise the
      elements are parsed, and an unsilenced log banner that does not fit
      panics. */
  method Configure(goos: string, osArgs: Argv, version: string, build: string,
                   environ0: map<string, string>, cfg: seq<CfgArg>)
    returns (paths: Paths, items: seq<Item>, environ: map<string, string>, stop: Stop)
    ensures cfg == [] ==> stop == Panic
    ensures cfg != [] && cfg[0].NilOptions? ==>
      stop == Panic && paths == Paths("", "", "", "") && items == [] && environ == environ0
    ensures cfg != [] && !cfg[0].NilOptions? ==> paths == SelectPaths(goos, osArgs).0
    ensures cfg != [] && !cfg[0].NilOptions? && |osArgs| > 1 && TrimLeftChar(osArgs[1], '-') == "version" ==>
      stop == Exit(0) && items == ExtractOptions(cfg).value.1 && environ == environ0
    ensures cfg != [] && !cfg[0].NilOptions? && |osArgs| > 1 && TrimLeftChar(osArgs[1], '-') == "help" ==>
      var (opts, rest) := ExtractOptions(cfg).value;
      stop == (if !opts.noHelp && HelpPanics(rest) then Panic else Exit(0)) && items == rest && environ == environ0
    ensures cfg != [] && !cfg[0].NilOptions? && !(|osArgs| > 1 && TrimLeftChar(osArgs[1], '-') in {"version", "help"}) ==>
      var (opts, rest) := ExtractOptions(cfg).value;
      var run := ItemsRun(EnvRev, rest, Ctx(osArgs, Switches(osArgs, map[]), opts.setENV), 0, [], environ0);
      items == run.0 && environ == run.1 &&
      stop == (if run.2 != Running then run.2 else if LogPanics(opts, osArgs[0], version, build) then Panic else Running)
  {
    paths, items, environ, stop := Paths("", "", "", ""), [], environ0, Panic;
    if cfg == [] || cfg[0].NilOptions? {
      return;
    }
    var opts: Options;
    opts, items := ExtractOptions(cfg).value.0, ExtractOptions(cfg).value.1;
    var name: string;
    paths, name := SelectPaths(goos, osArgs).0, SelectPaths(goos, osArgs).1;
    if |osArgs| > 1 {
      var n := InitGo.BannerWidth(name, version, build);
      var word := TrimLeftChar(osArgs[1], '-');
      if word == "version" {
        return paths, items, environ0, Exit(0);
      } else if word == "help" {
        var panics := HelpListing(opts, items);
        return paths, items, environ0, if panics then Panic else Exit(0);
      }
    }
    stop := Running;
    if |items| > 0 {
      items, environ, stop := Parse(opts, items, osArgs, environ0);
      if stop != Running {
        return;
      }
    }
    if LogPanics(opts, osArgs[0], version, build) {
      stop := Panic;
    }
  }
}
