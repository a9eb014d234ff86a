/** init.go: the package-level settings with their toggles, `Info`'s exit
    decisions and banner width, the `Args` and `Conf` map builders,
    `tagParse`, and `Parser`/`fieldParser`, which fill struct fields from a
    default, a conf map, the environment and the argument map. */
module InitGo {
  import opened GoText
  import opened Fields
  import opened Scan

  /** The package-level variables of init.go. */
  class Settings {
    var identity: string
    var version: string
    var build: string
    var etcPath: string
    var srvPath: string
    var varPath: string
    var development: bool
    var env: bool

    /** The values at program start: the identity is the base name of
        `os.Args[0]`, version and build come from the build, and the
        paths are the production ones. */
    constructor (arg0: string, version: string, build: string)
      ensures identity == Base(arg0) && this.version == version && this.build == build
      ensures etcPath == "/etc" && srvPath == "/srv" && varPath == "/var"
      ensures !development && !env
    {
      identity := Base(arg0);
      this.version := version;
      this.build := build;
      etcPath := "/etc";
      srvPath := "/srv";
      varPath := "/var";
      development := false;
      env := false;
    }

    /** `Development()`: flips the flag and returns its new value. */
    method Development() returns (r: bool)
      modifies `development
      ensures development == !old(development) && r == development
    {
      development := !development;
      r := development;
    }

    /** `Env()`: flips the mirror-to-environment flag and returns its new value. */
    method Env() returns (r: bool)
      modifies `env
      ensures env == !old(env) && r == env
    {
      env := !env;
      r := env;
    }

    /** The head of `Init`: any system but linux forces development, and
        development replaces identity, version, build and paths. */
    method ApplyPlatform(goos: string)
      modifies this
      ensures development == (old(development) || goos != "linux")
      ensures development ==>
        identity == "development" && version == "development" && build == "development" &&
        etcPath == "_dev/etc" && srvPath == "_dev/srv" && varPath == "_dev/var"
      ensures !development ==>
        identity == old(identity) && version == old(version) && build == old(build) &&
        etcPath == old(etcPath) && srvPath == old(srvPath) && varPath == old(varPath)
      ensures env == old(env)
    {
      if goos != "linux" {
        development := true;
      }
      if development {
        identity := "development";
        version := identity;
        build := identity;
        etcPath := "_dev/etc";
        srvPath := "_dev/srv";
        varPath := "_dev/var";
        development := true;
      }
    }
  }

  /** The width of the version banner: 18, widened to fit the name and
      version and build with their labels, lengths counted in bytes. */
  method BannerWidth(name: string, version: string, build: string) returns (n: int)
    ensures n >= 18 && n >= ByteLen(name) && n >= ByteLen(version) + 10 && n >= ByteLen(build) + 10
    ensures n == 18 || n == ByteLen(name) || n == ByteLen(version) + 10 || n == ByteLen(build) + 10
  {
    n := 18;
    if ByteLen(name) > n {
      n := ByteLen(name);
    }
    if ByteLen(version) + 10 > n {
      n := ByteLen(version) + 10;
    }
    if ByteLen(build) + 10 > n {
      n := ByteLen(build) + 10;
    }
  }

  /** Whether `helpTag` panics on a cfg element: the field count of a
      value that is not a struct, or `Interface()` on a nested struct
      reached through an unexported field. */
  predicate HelpPanics(item: Item) {
    !item.isStruct || exists j :: 0 <= j < |item.fields| && item.fields[j].kind == StructKind && !item.fields[j].exported
  }

  /** `helpTag`'s loop over the fields of one cfg element, as far as it
      can panic; the listing it prints is left out. */
  method HelpTag(item: Item) returns (panics: bool)
    ensures panics <==> HelpPanics(item)
  {
    if !item.isStruct {
      return true;
    }
    var i := 0;
    while i < |item.fields|
      invariant 0 <= i <= |item.fields|
      invariant forall q :: 0 <= q < i ==> !(item.fields[q].kind == StructKind && !item.fields[q].exported)
    {
      if item.fields[i].kind == StructKind && !item.fields[i].exported {
        return true;
      }
      i := i + 1;
    }
    return false;
  }

  /** `Info`: a first argument of `version` or `help` (dashes stripped)
      ends the run with exit code 0 once the banner is out, except that
      a help listing that panics (see `HelpPanics`) is recovered with exit
      code 1. Anything else lets the run go on. */
  method Info(s: Settings, osArgs: Argv, items: seq<Item>) returns (stop: Stop)
    ensures stop != Running <==>
      |osArgs| > 1 && TrimLeftChar(osArgs[1], '-') in {"version", "help"}
    ensures stop == Exit(1) <==>
      |osArgs| > 1 && TrimLeftChar(osArgs[1], '-') == "help" &&
      exists i :: 0 <= i < |items| && HelpPanics(items[i])
    ensures stop == Running || stop == Exit(0) || stop == Exit(1)
  {
    stop := Running;
    if |osArgs| > 1 {
      var n := BannerWidth(s.identity, s.version, s.build);
      var word := TrimLeftChar(osArgs[1], '-');
      if word == "version" {
        stop := Exit(0);
      } else if word == "help" {
        var i := 0;
        while i < |items|
          invariant 0 <= i <= |items|
          invariant forall q :: 0 <= q < i ==> !HelpPanics(items[q])
        {
          var panics := HelpTag(items[i]);
          if panics {
            return Exit(1);
          }
          i := i + 1;
        }
        stop := Exit(0);
      }
    }
  }

  /** `Args`: the switch map built from all of `os.Args`, starting from
      `m`, or from an empty map when `m` is nil. */
  method Args(m: Option<map<string, string>>, osArgs: Argv) returns (r: map<string, string>)
    ensures r == Switches(osArgs, if m.Some? then m.value else map[])
  {
    var start := if m.Some? then m.value else map[];
    r := ScanSwitches(osArgs, start);
  }

  /** `Conf` as written: the file is closed before the scanner reads it,
      so the first read fails and the map comes back as it went in (a new
      empty map for nil), whatever the file holds. */
  function ConfAsWritten(path: string, m: Option<map<string, string>>, files: map<string, seq<string>>): (r: map<string, string>)
    ensures m.None? ==> r == map[]
    ensures m.Some? ==> r == m.value
  {
    if m.Some? then m.value else map[]
  }

  /** A conf file with a line that yields a pair adds nothing through
      `Conf` as written, while reading its lines stores that pair's key. */
  lemma ConfAsWrittenDropsLines(path: string, lines: seq<string>, i: nat)
    requires i < |lines| && ConfLine(lines[i]).Some?
    ensures ConfAsWritten(path, None, map[path := lines]) == map[]
    ensures ConfLine(lines[i]).value.0 in ConfLines(lines, map[])
  {
    ConfLinesKeepKeys(lines, map[]);
  }

  /** `Conf` with the file read before it is closed: every line of the
      file, when it can be opened, folded into the starting map. */
  method Conf(path: string, m: Option<map<string, string>>, files: map<string, seq<string>>) returns (r: map<string, string>)
    ensures path !in files ==> r == (if m.Some? then m.value else map[])
    ensures path in files ==> r == ConfLines(files[path], if m.Some? then m.value else map[])
  {
    r := if m.Some? then m.value else map[];
    if path in files {
      r := LoadConfLines(files[path], r);
    }
  }

  // ---------------------------------------------------------------------
  // tagParse

  const FRequire: bv32 := 1
  const FOrder: bv32 := 2
  const FEnviron: bv32 := 4

  /** What `tagParse` returns: the name, the modifier text, the flag bits. */
  datatype TagParts = TagParts(tag: string, modifiers: string, flag: bv32)

  /** `tagParse` */
  function TagParse(s: string): TagParts {
    if ',' !in s then TagParts(s, "", 0)
    else
      var kv := SplitFirst(s, ',');
      var f := (if Contains(kv.1, "require") then FRequire else 0) |
               (if Contains(kv.1, "order") then FOrder else 0) |
               (if Contains(kv.1, "environ") then FEnviron else 0);
      TagParts(kv.0, kv.1, f)
  }

  /** The text before the first comma names the setting and the rest comes
      back verbatim; without a comma the tag is the whole text with no
      modifiers and no flags. Each modifier word found anywhere in the
      rest, as a substring, sets its own bit and no other bit is ever set. */
  lemma TagParseSpec(s: string)
    ensures ',' !in s ==> TagParse(s) == TagParts(s, "", 0)
    ensures ',' in s ==> s == TagParse(s).tag + [','] + TagParse(s).modifiers && ',' !in TagParse(s).tag
    ensures TagParse(s).flag & !(FRequire | FOrder | FEnviron) == 0
    ensures (TagParse(s).flag & FRequire != 0) <==> ',' in s && Contains(TagParse(s).modifiers, "require")
    ensures (TagParse(s).flag & FOrder != 0) <==> ',' in s && Contains(TagParse(s).modifiers, "order")
    ensures (TagParse(s).flag & FEnviron != 0) <==> ',' in s && Contains(TagParse(s).modifiers, "environ")
  {
  }

  // ---------------------------------------------------------------------
  // fieldParser

  /** The inputs `fieldParser` reads besides the struct: `os.Args`, the
      argument and conf maps, and the global mirror toggle. */
  datatype Ctx = Ctx(osArgs: seq<string>, args: map<string, string>, conf: map<string, string>, envToggle: bool)

  /** The state after some fields: the fields, the process environment,
      the positional counter and how the run stands. */
  datatype Run = Run(fields: seq<Field>, environ: map<string, string>, order: nat, stop: Stop)

  /** The setting name of a field: its `env` tag, or its lower-cased name
      when it has none and can be set, else nothing. */
  function FieldTag(item: Item, f: Field): string {
    if "env" in f.tags then f.tags["env"]
    else if CanSet(item, f) then ToLower(f.name)
    else ""
  }

  /** Whether the positional branch is taken: the `order` flag is set and
      `os.Args` has an element at the counter. */
  predicate OrderBranch(tp: TagParts, ctx: Ctx, order: nat) {
    tp.flag & FOrder == FOrder && |ctx.osArgs| > order
  }

  /** Whether the positional argument is taken, advancing the counter. */
  predicate Consumes(tp: TagParts, ctx: Ctx, order: nat) {
    OrderBranch(tp, ctx, order) && !HasPrefix(ctx.osArgs[order], "-")
  }

  /** The positional argument, when it is taken. */
  function Positional(tp: TagParts, ctx: Ctx, order: nat): seq<string> {
    if Consumes(tp, ctx, order) then [ctx.osArgs[order]] else []
  }

  /** The conf entry, the upper-cased environment variable and the
      argument entry, those that are present. */
  function Named(tag: string, ctx: Ctx, environ: map<string, string>): seq<string> {
    Present(ctx.conf, tag) + Present(SeenBy(environ, ToUpper(tag)), ToUpper(tag)) + Present(ctx.args, tag)
  }

  /** The texts passed to `setField`, in order: the default, then either
      the positional argument alone, or the named sources. */
  function Sources(f: Field, tp: TagParts, ctx: Ctx, environ: map<string, string>, order: nat): seq<string> {
    Present(f.tags, "default") +
    if OrderBranch(tp, ctx, order) then Positional(tp, ctx, order) else Named(tp.tag, ctx, environ)
  }

  /** Fields the loop passes over: exported nested structs (not recursed
      into in this model), and other fields whose setting name is `-` or
      empty. An unexported nested struct is not passed over: reading it
      with `Interface()` panics. */
  predicate Skips(item: Item, f: Field) {
    if f.kind == StructKind then f.exported else FieldTag(item, f) == "-" || FieldTag(item, f) == ""
  }

  /** One field that is not passed over: the `setField` statements, a
      panic on a field that cannot be set, then the require exit and the
      mirror. */
  function Turn(item: Item, ctx: Ctx, j: nat, r: Run): Run
    requires j < |r.fields|
  {
    var f := r.fields[j];
    var tp := TagParse(FieldTag(item, f));
    var a := ApplyAll(Strict, CanSet(item, f), f.kind, Unset(f.value), Sources(f, tp, ctx, r.environ, r.order));
    var order := if Consumes(tp, ctx, r.order) then r.order + 1 else r.order;
    if a.panicked then r.(stop := Exit(1))
    else
      var fields := r.fields[j := f.(value := a.value)];
      if tp.flag & FRequire == FRequire && !a.status then Run(fields, r.environ, order, Exit(0))
      else if (ctx.envToggle || (tp.flag & FEnviron == FEnviron && a.status)) && SetenvAccepts(tp.tag, a.text) then
        Run(fields, r.environ[tp.tag := a.text], order, Running)
      else Run(fields, r.environ, order, Running)
  }

  /** One turn of the field loop for field `j`: a skipped field, an
      unexported nested struct whose `Interface()` panics into exit code 1,
      or a turn. */
  function Step(item: Item, ctx: Ctx, j: nat, r: Run): (r': Run)
    requires j < |r.fields|
    ensures |r'.fields| == |r.fields|
    ensures forall k :: 0 <= k < |r.fields| && (k != j || Skips(item, r.fields[j])) ==> r'.fields[k] == r.fields[k]
  {
    if Skips(item, r.fields[j]) then r
    else if r.fields[j].kind == StructKind then r.(stop := Exit(1))
    else Turn(item, ctx, j, r)
  }

  /** The field loop from field `j` on, stopping at the first exit. */
  function Walk(item: Item, ctx: Ctx, j: nat, r: Run): (r': Run)
    requires j <= |r.fields|
    ensures |r'.fields| == |r.fields|
    ensures forall k :: 0 <= k < |r.fields| && Skips(item, r.fields[k]) ==> r'.fields[k] == r.fields[k]
    decreases |r.fields| - j
  {
    if j == |r.fields| || r.stop != Running then r
    else Walk(item, ctx, j + 1, Step(item, ctx, j, r))
  }

  lemma WalkUnfold(item: Item, ctx: Ctx, j: nat, r: Run)
    requires j < |r.fields| && r.stop == Running
    ensures Walk(item, ctx, j, r) == Walk(item, ctx, j + 1, Step(item, ctx, j, r))
    ensures Step(item, ctx, j, r).stop != Running ==> Walk(item, ctx, j + 1, Step(item, ctx, j, r)) == Step(item, ctx, j, r)
  {
  }

  /** In the named branch the argument entry beats the upper-cased
      environment variable, which beats the conf entry, which beats the
      default; the positional branch reads none of the three maps. */
  lemma SourcesPrecedence(f: Field, tp: TagParts, ctx: Ctx, environ: map<string, string>, order: nat)
    ensures OrderBranch(tp, ctx, order) ==>
      Sources(f, tp, ctx, environ, order) == Present(f.tags, "default") + Positional(tp, ctx, order)
    ensures var texts := Sources(f, tp, ctx, environ, order);
      !OrderBranch(tp, ctx, order) ==>
        (texts == [] <==> "default" !in f.tags && tp.tag !in ctx.conf && !Finds(environ, ToUpper(tp.tag)) && tp.tag !in ctx.args) &&
        (tp.tag in ctx.args ==> texts[|texts| - 1] == ctx.args[tp.tag]) &&
        (tp.tag !in ctx.args && Finds(environ, ToUpper(tp.tag)) ==> texts[|texts| - 1] == environ[ToUpper(tp.tag)]) &&
        (tp.tag !in ctx.args && !Finds(environ, ToUpper(tp.tag)) && tp.tag in ctx.conf ==> texts[|texts| - 1] == ctx.conf[tp.tag]) &&
        (tp.tag !in ctx.args && !Finds(environ, ToUpper(tp.tag)) && tp.tag !in ctx.conf ==> texts == Present(f.tags, "default"))
  {
  }

  /** A settable string or integer field ends with the conversion of its
      last source, or keeps its value when it has none; no other field
      changes; and the run stops, with exit code 0, exactly when the field
      is required and that source is missing or empty. */
  lemma StepScalarField(item: Item, ctx: Ctx, j: nat, r: Run)
    requires j < |r.fields| && r.stop == Running
    requires IsScalarKind(r.fields[j].kind) && CanSet(item, r.fields[j]) && !Skips(item, r.fields[j])
    ensures var f := r.fields[j];
      var tp := TagParse(FieldTag(item, f));
      var texts := Sources(f, tp, ctx, r.environ, r.order);
      var missing := texts == [] || texts[|texts| - 1] == "";
      Step(item, ctx, j, r).fields ==
        r.fields[j := f.(value := if texts == [] then f.value else SetField(Strict, f.kind, f.value, texts[|texts| - 1]).value)] &&
      (Step(item, ctx, j, r).stop == Exit(0) <==> tp.flag & FRequire == FRequire && missing) &&
      (Step(item, ctx, j, r).stop == Running <==> !(tp.flag & FRequire == FRequire && missing))
  {
    var f := r.fields[j];
    var tp := TagParse(FieldTag(item, f));
    ApplyAllScalarLast(Strict, f.kind, Unset(f.value), Sources(f, tp, ctx, r.environ, r.order));
  }

  /** Without the global toggle and the `environ` flag a turn leaves the
      environment alone. */
  lemma StepNoMirror(item: Item, ctx: Ctx, j: nat, r: Run)
    requires j < |r.fields| && r.stop == Running
    ensures var tp := TagParse(FieldTag(item, r.fields[j]));
      !ctx.envToggle && tp.flag & FEnviron == 0 ==> Step(item, ctx, j, r).environ == r.environ
  {
    var tp := TagParse(FieldTag(item, r.fields[j]));
    if !ctx.envToggle && tp.flag & FEnviron == 0 && !Skips(item, r.fields[j]) {
      assert !(tp.flag & FEnviron == FEnviron);
    }
  }

  /** The mirror under the global toggle: a handled field is written to the
      environment under its tag when `os.Setenv` takes the pair, and one
      that no source reached is written as ""; a refused pair (an empty
      tag, as `env:",require"` gives) leaves the environment alone. */
  lemma StepMirror(item: Item, ctx: Ctx, j: nat, r: Run)
    requires j < |r.fields| && r.stop == Running
    ensures var f := r.fields[j];
      var tp := TagParse(FieldTag(item, f));
      var e := Step(item, ctx, j, r).environ;
      ctx.envToggle && !Skips(item, f) && Step(item, ctx, j, r).stop == Running ==>
        (e == r.environ || (tp.tag in e && SetenvAccepts(tp.tag, e[tp.tag]) && e == r.environ[tp.tag := e[tp.tag]])) &&
        (tp.tag == "" ==> e == r.environ)
    ensures var f := r.fields[j];
      var tp := TagParse(FieldTag(item, f));
      ctx.envToggle && !Skips(item, f) && f.kind != StructKind && tp.flag & FRequire == 0 && Sources(f, tp, ctx, r.environ, r.order) == [] ==>
        Step(item, ctx, j, r).environ == if SetenvAccepts(tp.tag, "") then r.environ[tp.tag := ""] else r.environ
  {
  }

  /** A nested struct field: an exported one is passed over, and an
      unexported one stops the loop with exit code 1, changing nothing. */
  lemma StepNestedStruct(item: Item, ctx: Ctx, j: nat, r: Run)
    requires j < |r.fields| && r.fields[j].kind == StructKind
    ensures Step(item, ctx, j, r) == if r.fields[j].exported then r else r.(stop := Exit(1))
  {
  }

  /** Under the global toggle a handled field whose text `os.Setenv`
      takes is mirrored with exactly that text. */
  lemma StepMirrorWrites(item: Item, ctx: Ctx, j: nat, r: Run)
    requires j < |r.fields| && r.stop == Running
    ensures var f := r.fields[j];
      var tp := TagParse(FieldTag(item, f));
      var a := ApplyAll(Strict, CanSet(item, f), f.kind, Unset(f.value), Sources(f, tp, ctx, r.environ, r.order));
      ctx.envToggle && !Skips(item, f) && Step(item, ctx, j, r).stop == Running && SetenvAccepts(tp.tag, a.text) ==>
        Step(item, ctx, j, r).environ == r.environ[tp.tag := a.text]
  {
  }

  /** In the positional branch the field does not depend on the argument
      map, the conf map or the environment, and the counter advances
      exactly when the argument is not a switch. */
  lemma StepOrderBranch(item: Item, ctx: Ctx, j: nat, r: Run, args: map<string, string>, conf: map<string, string>, environ: map<string, string>)
    requires j < |r.fields| && r.stop == Running && !Skips(item, r.fields[j])
    requires OrderBranch(TagParse(FieldTag(item, r.fields[j])), ctx, r.order)
    ensures Step(item, ctx, j, r).fields == Step(item, ctx.(args := args, conf := conf), j, r.(environ := environ)).fields
    ensures Step(item, ctx, j, r).stop == Step(item, ctx.(args := args, conf := conf), j, r.(environ := environ)).stop
    ensures Step(item, ctx, j, r).stop != Exit(1) ==>
      Step(item, ctx, j, r).order == if HasPrefix(ctx.osArgs[r.order], "-") then r.order else r.order + 1
  {
    var f := r.fields[j];
    var tp := TagParse(FieldTag(item, f));
    var ctx' := ctx.(args := args, conf := conf);
    SourcesOrderBranch(f, tp, ctx, r.environ, r.order);
    SourcesOrderBranch(f, tp, ctx', environ, r.order);
    if f.kind != StructKind {
      TurnShape(item, ctx, j, r);
      TurnShape(item, ctx', j, r.(environ := environ));
      assert Step(item, ctx, j, r) == Turn(item, ctx, j, r);
      assert Step(item, ctx', j, r.(environ := environ)) == Turn(item, ctx', j, r.(environ := environ));
    }
  }

  /** What a turn does to the fields, the counter and the stop state,
      in terms of the applied result alone. */
  lemma TurnShape(item: Item, ctx: Ctx, j: nat, r: Run)
    requires j < |r.fields|
    ensures var f := r.fields[j]; var tp := TagParse(FieldTag(item, f));
      var a := ApplyAll(Strict, CanSet(item, f), f.kind, Unset(f.value), Sources(f, tp, ctx, r.environ, r.order));
      var s := Turn(item, ctx, j, r);
      s.fields == (if a.panicked then r.fields else r.fields[j := f.(value := a.value)]) &&
      s.stop == (if a.panicked then Exit(1) else if tp.flag & FRequire == FRequire && !a.status then Exit(0) else Running) &&
      (!a.panicked ==> s.order == if Consumes(tp, ctx, r.order) then r.order + 1 else r.order)
  {
  }

  /** On the positional branch the named sources play no part. */
  lemma SourcesOrderBranch(f: Field, tp: TagParts, ctx: Ctx, environ: map<string, string>, order: nat)
    requires OrderBranch(tp, ctx, order)
    ensures Sources(f, tp, ctx, environ, order) ==
      Present(f.tags, "default") + if HasPrefix(ctx.osArgs[order], "-") then [] else [ctx.osArgs[order]]
  {
  }

  /** A turn changes no field but its own, and a skipped field not at all. */
  lemma StepFrame(item: Item, ctx: Ctx, j: nat, r: Run, k: nat)
    requires j < |r.fields| && k < |r.fields|
    requires k != j || Skips(item, r.fields[j])
    ensures Step(item, ctx, j, r).fields[k] == r.fields[k]
  {
  }

  /** `fieldParser` on one cfg element with the counter at 1: a value that
      is not a struct panics on the field count, which the deferred
      recovery turns into exit code 1. */
  function ItemRun(item: Item, ctx: Ctx, environ: map<string, string>): Run {
    if !item.isStruct then Run(item.fields, environ, 1, Exit(1))
    else Walk(item, ctx, 0, Run(item.fields, environ, 1, Running))
  }

  /** The `setField` statements for one field, in the order of `Sources`,
      with the positional counter advanced when the argument is taken. */
  method SetFromSources(item: Item, f: Field, tp: TagParts, ctx: Ctx, environ: map<string, string>, order0: nat)
    returns (a: Applied, order: nat)
    ensures a == ApplyAll(Strict, CanSet(item, f), f.kind, Unset(f.value), Sources(f, tp, ctx, environ, order0))
    ensures order == if Consumes(tp, ctx, order0) then order0 + 1 else order0
  {
    var settable := CanSet(item, f);
    var tag := tp.tag;
    order := order0;
    a := Unset(f.value);
    if "default" in f.tags {
      a := SetOnce(Strict, settable, f.kind, a, f.tags["default"]);
    }
    ApplyAllPresent(Strict, settable, f.kind, Unset(f.value), f.tags, "default");
    ghost var a1 := a;
    if tp.flag & FOrder == FOrder && |ctx.osArgs| > order {
      if !HasPrefix(ctx.osArgs[order], "-") {
        a := SetOnce(Strict, settable, f.kind, a, ctx.osArgs[order]);
        order := order + 1;
        ApplyAllOne(Strict, settable, f.kind, a1, ctx.osArgs[order0]);
      }
      ApplyAllAppend(Strict, settable, f.kind, Unset(f.value), Present(f.tags, "default"), Positional(tp, ctx, order0));
    } else {
      if tag in ctx.conf {
        a := SetOnce(Strict, settable, f.kind, a, ctx.conf[tag]);
      }
      ApplyAllPresent(Strict, settable, f.kind, a1, ctx.conf, tag);
      ghost var a2 := a;
      if Finds(environ, ToUpper(tag)) {
        a := SetOnce(Strict, settable, f.kind, a, environ[ToUpper(tag)]);
      }
      ApplyAllPresent(Strict, settable, f.kind, a2, SeenBy(environ, ToUpper(tag)), ToUpper(tag));
      ghost var a3 := a;
      if tag in ctx.args {
        a := SetOnce(Strict, settable, f.kind, a, ctx.args[tag]);
      }
      ApplyAllPresent(Strict, settable, f.kind, a3, ctx.args, tag);
      ApplyAllAppend(Strict, settable, f.kind, a1, Present(ctx.conf, tag), Present(SeenBy(environ, ToUpper(tag)), ToUpper(tag)));
      ApplyAllAppend(Strict, settable, f.kind, a1, Present(ctx.conf, tag) + Present(SeenBy(environ, ToUpper(tag)), ToUpper(tag)), Present(ctx.args, tag));
      ApplyAllAppend(Strict, settable, f.kind, Unset(f.value), Present(f.tags, "default"), Named(tag, ctx, environ));
    }
  }

  /** One turn of `fieldParser`'s loop: the setting name, the skip test,
      the `setField` statements, the require check and the mirror. */
  method ParseField(item: Item, ctx: Ctx, j: nat, r: Run) returns (r': Run)
    requires j < |r.fields|
    ensures r' == Step(item, ctx, j, r)
  {
    var f := r.fields[j];
    var tag := FieldTag(item, f);
    if Skips(item, f) {
      return r;
    }
    if f.kind == StructKind {
      return r.(stop := Exit(1));
    }
    assert Step(item, ctx, j, r) == Turn(item, ctx, j, r);
    var tp := TagParse(tag);
    var a, order := SetFromSources(item, f, tp, ctx, r.environ, r.order);
    if a.panicked {
      return r.(stop := Exit(1));
    }
    var fields := r.fields[j := f.(value := a.value)];
    if tp.flag & FRequire == FRequire && !a.status {
      return Run(fields, r.environ, order, Exit(0));
    }
    var environ := r.environ;
    if (ctx.envToggle || (tp.flag & FEnviron == FEnviron && a.status)) && SetenvAccepts(tp.tag, a.text) {
      environ := environ[tp.tag := a.text];
    }
    r' := Run(fields, environ, order, Running);
  }

  /** `fieldParser`: the loop over the fields of one struct. */
  method FieldParser(item: Item, ctx: Ctx, environ0: map<string, string>)
    returns (fields: seq<Field>, environ: map<string, string>, stop: Stop)
    ensures fields == ItemRun(item, ctx, environ0).fields
    ensures environ == ItemRun(item, ctx, environ0).environ
    ensures stop == ItemRun(item, ctx, environ0).stop
  {
    fields, environ := item.fields, environ0;
    if !item.isStruct {
      return fields, environ, Exit(1);
    }
    var r := Run(item.fields, environ0, 1, Running);
    var j := 0;
    while j < |r.fields|
      invariant 0 <= j <= |r.fields| == |item.fields|
      invariant r.stop == Running
      invariant Walk(item, ctx, j, r) == ItemRun(item, ctx, environ0)
    {
      WalkUnfold(item, ctx, j, r);
      r := ParseField(item, ctx, j, r);
      if r.stop != Running {
        return r.fields, r.environ, r.stop;
      }
      j := j + 1;
    }
    fields, environ, stop := r.fields, r.environ, Running;
  }

  /** The cfg elements handled one after another from element `i` on,
      stopping at the first exit. */
  function ItemsRun(items: seq<Item>, ctx: Ctx, i: nat, done: seq<Item>, environ: map<string, string>): (seq<Item>, map<string, string>, Stop)
    requires i <= |items|
    decreases |items| - i
  {
    if i == |items| then (done, environ, Running)
    else
      var r := ItemRun(items[i], ctx, environ);
      if r.stop != Running then (done + [items[i].(fields := r.fields)] + items[i + 1..], r.environ, r.stop)
      else ItemsRun(items, ctx, i + 1, done + [items[i].(fields := r.fields)], r.environ)
  }

  /** One cfg element of `ItemsRun`, given what `fieldParser` made of it. */
  lemma ItemsRunStep(items: seq<Item>, ctx: Ctx, i: nat, done: seq<Item>, environ: map<string, string>, r: Run)
    requires i < |items|
    requires r.fields == ItemRun(items[i], ctx, environ).fields
    requires r.environ == ItemRun(items[i], ctx, environ).environ
    requires r.stop == ItemRun(items[i], ctx, environ).stop
    ensures ItemsRun(items, ctx, i, done, environ) ==
      if r.stop != Running then (done + [items[i].(fields := r.fields)] + items[i + 1..], r.environ, r.stop)
      else ItemsRun(items, ctx, i + 1, done + [items[i].(fields := r.fields)], r.environ)
  {
  }

  /** `Parser`: a nil argument map is built from `os.Args`, a nil conf map
      comes from `Conf` on `<EtcPath>/<Identity>/<Identity>.conf` as that
      function is written, which is always empty; then every cfg element
      goes through `fieldParser` with the counter at 1. */
  method Parser(s: Settings, args: Option<map<string, string>>, conf: Option<map<string, string>>, envToggle: bool,
                items: seq<Item>, osArgs: Argv, environ0: map<string, string>, files: map<string, seq<string>>)
    returns (result: seq<Item>, environ: map<string, string>, stop: Stop)
    ensures var a := if args.Some? then args.value else Switches(osArgs, map[]);
            var c := if conf.Some? then conf.value else map[];
            (result, environ, stop) == ItemsRun(items, Ctx(osArgs, a, c, envToggle), 0, [], environ0)
  {
    var a: map<string, string>;
    if args.Some? {
      a := args.value;
    } else {
      a := Args(None, osArgs);
    }
    var c: map<string, string>;
    if conf.Some? {
      c := conf.value;
    } else {
      c := ConfAsWritten(JoinPath([s.etcPath, s.identity, s.identity + ".conf"]), None, files);
    }
    var ctx := Ctx(osArgs, a, c, envToggle);
    result, environ, stop := [], environ0, Running;
    var i := 0;
    while i < |items|
      invariant 0 <= i <= |items| && |result| == i
      invariant ItemsRun(items, ctx, i, result, environ) == ItemsRun(items, ctx, 0, [], environ0)
    {
      var fields, e, st := FieldParser(items[i], ctx, environ);
      ItemsRunStep(items, ctx, i, result, environ, Run(fields, e, 1, st));
      if st != Running {
        return result + [items[i].(fields := fields)] + items[i + 1..], e, st;
      }
      result, environ := result + [items[i].(fields := fields)], e;
      i := i + 1;
    }
  }

  /** `Init`: the platform check, then `Info`, then `Parser` with both
      maps nil and the `env` toggle. */
  method Init(s: Settings, goos: string, osArgs: Argv, environ0: map<string, string>,
              files: map<string, seq<string>>, items: seq<Item>)
    returns (result: seq<Item>, environ: map<string, string>, stop: Stop)
    modifies s
    ensures s.development == (old(s.development) || goos != "linux")
    ensures s.development ==>
      s.identity == "development" && s.version == "development" && s.build == "development" &&
      s.etcPath == "_dev/etc" && s.srvPath == "_dev/srv" && s.varPath == "_dev/var"
    ensures !s.development ==>
      s.identity == old(s.identity) && s.version == old(s.version) && s.build == old(s.build) &&
      s.etcPath == old(s.etcPath) && s.srvPath == old(s.srvPath) && s.varPath == old(s.varPath)
    ensures s.env == old(s.env)
    ensures |osArgs| > 1 && TrimLeftChar(osArgs[1], '-') in {"version", "help"} ==>
      (stop == Exit(0) || stop == Exit(1)) && result == items && environ == environ0
    ensures |osArgs| > 1 && TrimLeftChar(osArgs[1], '-') in {"version", "help"} ==>
      (stop == Exit(1) <==> TrimLeftChar(osArgs[1], '-') == "help" && exists i :: 0 <= i < |items| && HelpPanics(items[i]))
    ensures !(|osArgs| > 1 && TrimLeftChar(osArgs[1], '-') in {"version", "help"}) ==>
      (result, environ, stop) == ItemsRun(items, Ctx(osArgs, Switches(osArgs, map[]), map[], old(s.env)), 0, [], environ0)
  {
    s.ApplyPlatform(goos);
    stop := Info(s, osArgs, items);
    if stop != Running {
      return items, environ0, stop;
    }
    result, environ, stop := Parser(s, None, None, s.env, items, osArgs, environ0, files);
  }
}
