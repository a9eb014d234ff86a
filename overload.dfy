/** The field merge shared by env.go's `Options.parse` and parser.go's
    `Parser.Do`: the `env` tag words, the sources in overloading order
    (default, the map under the name, the map under the alias, the
    upper-cased environment variable, the positional argument), the
    require exit and the mirror into the environment. The two revisions
    differ only in which fields they pass over and in whether a field that
    cannot be set is written to (a panic). */
module Overload {
  import opened GoText
  import opened Fields

  /** env.go's `parse` or parser.go's `Do`. */
  datatype Rev = EnvRev | ParserRev

  /** The decoded `env` tag: three flags and the alias. */
  datatype EnvTag = EnvTag(order: bool, require: bool, environ: bool, alias: string)

  /** A field without an `env` tag. */
  const NoTag := EnvTag(false, false, false, "")

  predicate IsFlagWord(w: string) {
    w == "order" || w == "require" || w == "environ"
  }

  /** One word of the tag: a flag word sets its flag, any other word,
      `hidden` and the empty word included, replaces the alias. */
  function TagWord(t: EnvTag, w: string): EnvTag {
    if w == "order" then t.(order := true)
    else if w == "require" then t.(require := true)
    else if w == "environ" then t.(environ := true)
    else t.(alias := w)
  }

  /** The words in order. */
  function TagWords(t: EnvTag, words: seq<string>): EnvTag
    decreases |words|
  {
    if words == [] then t else TagWords(TagWord(t, words[0]), words[1..])
  }

  /** The last word that is not a flag word, if any. */
  function LastAlias(words: seq<string>): Option<string>
    decreases |words|
  {
    if words == [] then None
    else if !IsFlagWord(words[|words| - 1]) then Some(words[|words| - 1])
    else LastAlias(words[..|words| - 1])
  }

  lemma {:induction false} TagWordsSnoc(t: EnvTag, words: seq<string>, w: string)
    ensures TagWords(t, words + [w]) == TagWord(TagWords(t, words), w)
    decreases |words|
  {
    if words == [] {
      assert words + [w] == [w];
      assert [w][1..] == [];
    } else {
      assert (words + [w])[1..] == words[1..] + [w];
      TagWordsSnoc(TagWord(t, words[0]), words[1..], w);
    }
  }

  /** A flag is set exactly when its word occurs. */
  lemma {:induction false} TagWordsFlags(t: EnvTag, words: seq<string>)
    ensures TagWords(t, words).order <==> t.order || "order" in words
    ensures TagWords(t, words).require <==> t.require || "require" in words
    ensures TagWords(t, words).environ <==> t.environ || "environ" in words
    decreases |words|
  {
    if words != [] {
      TagWordsFlags(TagWord(t, words[0]), words[1..]);
      assert words == [words[0]] + words[1..];
    }
  }

  /** The alias is the last word that is not a flag word (the starting
      alias when there is none). */
  lemma {:induction false} TagWordsAlias(t: EnvTag, words: seq<string>)
    ensures TagWords(t, words).alias == if LastAlias(words).Some? then LastAlias(words).value else t.alias
    decreases |words|
  {
    if words != [] {
      var init, w := words[..|words| - 1], words[|words| - 1];
      assert words == init + [w];
      TagWordsSnoc(t, init, w);
      TagWordsAlias(t, init);
    }
  }

  /** The tag of a field: its `env` tag split at commas, word by word. */
  function EnvTagOf(f: Field): EnvTag {
    if "env" in f.tags then TagWords(NoTag, Split(f.tags["env"], ',')) else NoTag
  }

  /** The word loop over `strings.Split(tag, ",")`. */
  method DecodeTag(f: Field) returns (t: EnvTag)
    ensures t == EnvTagOf(f)
  {
    t := NoTag;
    if "env" in f.tags {
      var words := Split(f.tags["env"], ',');
      var i := 0;
      while i < |words|
        invariant 0 <= i <= |words|
        invariant TagWords(t, words[i..]) == TagWords(NoTag, words)
      {
        assert words[i..][1..] == words[i + 1..];
        t := TagWord(t, words[i]);
        i := i + 1;
      }
      assert words[i..] == [];
    }
  }

  /** What the field loop reads besides the struct: `os.Args`, the switch
      (and conf) map and the global mirror option. */
  datatype Ctx = Ctx(osArgs: seq<string>, m: map<string, string>, setENV: bool)

  /** The state after some fields: the fields, the process environment,
      the positional counter and how the run stands. */
  datatype Run = Run(fields: seq<Field>, environ: map<string, string>, order: nat, stop: Stop)

  /** The setting name: the field name in lower case. */
  function NameOf(f: Field): string {
    ToLower(f.name)
  }

  /** Fields the loop passes over. env.go skips fields that cannot be set,
      an empty name and an `env:"-"` tag; parser.go only a name that is `-`
      or empty. */
  predicate Skips(rev: Rev, item: Item, f: Field) {
    match rev
    case EnvRev => !CanSet(item, f) || NameOf(f) == "" || ("env" in f.tags && f.tags["env"] == "-")
    case ParserRev => NameOf(f) == "-" || NameOf(f) == ""
  }

  /** Whether the positional argument at the counter is taken. */
  predicate Consumes(t: EnvTag, ctx: Ctx, order: nat) {
    t.order && |ctx.osArgs| > order && !HasPrefix(ctx.osArgs[order], "-")
  }

  /** The texts passed to `setField`, in order. */
  function Sources(f: Field, t: EnvTag, ctx: Ctx, environ: map<string, string>, order: nat): seq<string> {
    Present(f.tags, "default") + Present(ctx.m, NameOf(f)) + Present(ctx.m, t.alias) +
    Present(SeenBy(environ, ToUpper(NameOf(f))), ToUpper(NameOf(f))) + (if Consumes(t, ctx, order) then [ctx.osArgs[order]] else [])
  }

  /** One field that is not passed over: the `setField` statements, where
      writing to a field that cannot be set panics, then the require exit
      and the mirror under the lower-case name. */
  function Turn(settable: bool, ctx: Ctx, j: nat, r: Run): Run
    requires j < |r.fields|
  {
    var f := r.fields[j];
    var t := EnvTagOf(f);
    var a := ApplyAll(Lenient, settable, f.kind, Unset(f.value), Sources(f, t, ctx, r.environ, r.order));
    var order := if Consumes(t, ctx, r.order) then r.order + 1 else r.order;
    if a.panicked then r.(stop := Panic)
    else
      var fields := r.fields[j := f.(value := a.value)];
      if t.require && !a.status then Run(fields, r.environ, order, Exit(0))
      else if a.status && (ctx.setENV || t.environ) && SetenvAccepts(NameOf(f), a.text) then
        Run(fields, r.environ[NameOf(f) := a.text], order, Running)
      else Run(fields, r.environ, order, Running)
  }

  /** One turn of the field loop for field `j`. */
  function Step(rev: Rev, item: Item, ctx: Ctx, j: nat, r: Run): (r': Run)
    requires j < |r.fields|
    ensures |r'.fields| == |r.fields|
    ensures forall k :: 0 <= k < |r.fields| && (k != j || Skips(rev, item, r.fields[j])) ==> r'.fields[k] == r.fields[k]
  {
    if Skips(rev, item, r.fields[j]) then r else Turn(CanSet(item, r.fields[j]), ctx, j, r)
  }

  /** The field loop from field `j` on, stopping at the first exit. */
  function Walk(rev: Rev, item: Item, ctx: Ctx, j: nat, r: Run): (r': Run)
    requires j <= |r.fields|
    ensures |r'.fields| == |r.fields|
    ensures forall k :: 0 <= k < |r.fields| && Skips(rev, item, r.fields[k]) ==> r'.fields[k] == r.fields[k]
    decreases |r.fields| - j
  {
    if j == |r.fields| || r.stop != Running then r
    else Walk(rev, item, ctx, j + 1, Step(rev, item, ctx, j, r))
  }

  lemma WalkUnfold(rev: Rev, item: Item, ctx: Ctx, j: nat, r: Run)
    requires j < |r.fields| && r.stop == Running
    ensures Walk(rev, item, ctx, j, r) == Walk(rev, item, ctx, j + 1, Step(rev, item, ctx, j, r))
    ensures Step(rev, item, ctx, j, r).stop != Running ==>
      Walk(rev, item, ctx, j + 1, Step(rev, item, ctx, j, r)) == Step(rev, item, ctx, j, r)
  {
  }

  /** One cfg element with the counter at 1. An element that is not a
      struct exits with code 1 after its message, whose `Elem()` panics
      first when the element's type has no element type (neither a pointer
      nor an array, chan, map or slice). */
  function ItemRun(rev: Rev, item: Item, ctx: Ctx, environ: map<string, string>): Run {
    if !item.isStruct then Run(item.fields, environ, 1, if item.pointer || item.container then Exit(1) else Panic)
    else Walk(rev, item, ctx, 0, Run(item.fields, environ, 1, Running))
  }

  /** The cfg elements from element `i` on, stopping at the first exit. */
  function ItemsRun(rev: Rev, items: seq<Item>, ctx: Ctx, i: nat, done: seq<Item>, environ: map<string, string>): (seq<Item>, map<string, string>, Stop)
    requires i <= |items|
    decreases |items| - i
  {
    if i == |items| then (done, environ, Running)
    else
      var r := ItemRun(rev, items[i], ctx, environ);
      if r.stop != Running then (done + [items[i].(fields := r.fields)] + items[i + 1..], r.environ, r.stop)
      else ItemsRun(rev, items, ctx, i + 1, done + [items[i].(fields := r.fields)], r.environ)
  }

  // ---------------------------------------------------------------------
  // The loops

  /** The `setField` statements of one field, in the order of `Sources`. */
  method SetFromSources(settable: bool, f: Field, t: EnvTag, ctx: Ctx, environ: map<string, string>, order0: nat)
    returns (a: Applied, order: nat)
    ensures a == ApplyAll(Lenient, settable, f.kind, Unset(f.value), Sources(f, t, ctx, environ, order0))
    ensures order == if Consumes(t, ctx, order0) then order0 + 1 else order0
  {
    var name := NameOf(f);
    ghost var texts: seq<string> := [];
    a := SetIfPresent(Lenient, settable, f.kind, Unset(f.value), f.tags, "default");
    texts := Present(f.tags, "default");
    a := SetNext(settable, f.kind, Unset(f.value), texts, a, ctx.m, name);
    texts := texts + Present(ctx.m, name);
    a := SetNext(settable, f.kind, Unset(f.value), texts, a, ctx.m, t.alias);
    texts := texts + Present(ctx.m, t.alias);
    a := SetNext(settable, f.kind, Unset(f.value), texts, a, SeenBy(environ, ToUpper(name)), ToUpper(name));
    texts := texts + Present(SeenBy(environ, ToUpper(name)), ToUpper(name));
    order := order0;
    if t.order && |ctx.osArgs| > order && !HasPrefix(ctx.osArgs[order], "-") {
      ApplyAllSnoc(Lenient, settable, f.kind, Unset(f.value), texts, ctx.osArgs[order]);
      a := SetOnce(Lenient, settable, f.kind, a, ctx.osArgs[order]);
      order := order + 1;
    } else {
      assert texts + [] == texts;
    }
  }

  /** The next present source after the texts already applied. */
  method SetNext(settable: bool, kind: Kind, a0: Applied, ghost texts: seq<string>, a: Applied, m: map<string, string>, k: string)
    returns (a': Applied)
    requires a == ApplyAll(Lenient, settable, kind, a0, texts)
    ensures a' == ApplyAll(Lenient, settable, kind, a0, texts + Present(m, k))
  {
    a' := SetIfPresent(Lenient, settable, kind, a, m, k);
    ApplyAllAppend(Lenient, settable, kind, a0, texts, Present(m, k));
  }

  /** One turn of the field loop: the skip tests, the tag words, the
      `setField` statements, the require exit and the mirror. */
  method MergeField(rev: Rev, item: Item, ctx: Ctx, j: nat, r: Run) returns (r': Run)
    requires j < |r.fields|
    ensures r' == Step(rev, item, ctx, j, r)
  {
    var f := r.fields[j];
    if Skips(rev, item, f) {
      return r;
    }
    assert Step(rev, item, ctx, j, r) == Turn(CanSet(item, f), ctx, j, r);
    var t := DecodeTag(f);
    var a, order := SetFromSources(CanSet(item, f), f, t, ctx, r.environ, r.order);
    if a.panicked {
      return r.(stop := Panic);
    }
    var fields := r.fields[j := f.(value := a.value)];
    if t.require && !a.status {
      return Run(fields, r.environ, order, Exit(0));
    }
    var environ := r.environ;
    if a.status && (ctx.setENV || t.environ) && SetenvAccepts(NameOf(f), a.text) {
      environ := environ[NameOf(f) := a.text];
    }
    r' := Run(fields, environ, order, Running);
  }

  /** The loop over the fields of one cfg element. */
  method MergeItem(rev: Rev, item: Item, ctx: Ctx, environ0: map<string, string>)
    returns (fields: seq<Field>, environ: map<string, string>, stop: Stop)
    ensures (fields, environ, stop) == (ItemRun(rev, item, ctx, environ0).fields, ItemRun(rev, item, ctx, environ0).environ, ItemRun(rev, item, ctx, environ0).stop)
  {
    if !item.isStruct {
      return item.fields, environ0, if item.pointer || item.container then Exit(1) else Panic;
    }
    var r := Run(item.fields, environ0, 1, Running);
    var j := 0;
    while j < |r.fields|
      invariant 0 <= j <= |r.fields| == |item.fields|
      invariant r.stop == Running
      invariant Walk(rev, item, ctx, j, r) == ItemRun(rev, item, ctx, environ0)
    {
      WalkUnfold(rev, item, ctx, j, r);
      r := MergeField(rev, item, ctx, j, r);
      if r.stop != Running {
        return r.fields, r.environ, r.stop;
      }
      j := j + 1;
    }
    fields, environ, stop := r.fields, r.environ, Running;
  }

  /** The loop over the cfg elements, each with its own counter. */
  method MergeItems(rev: Rev, items: seq<Item>, ctx: Ctx, environ0: map<string, string>)
    returns (result: seq<Item>, environ: map<string, string>, stop: Stop)
    ensures (result, environ, stop) == ItemsRun(rev, items, ctx, 0, [], environ0)
  {
    result, environ, stop := [], environ0, Running;
    var i := 0;
    while i < |items|
      invariant 0 <= i <= |items| && |result| == i
      invariant ItemsRun(rev, items, ctx, i, result, environ) == ItemsRun(rev, items, ctx, 0, [], environ0)
    {
      var fields, e, st := MergeItem(rev, items[i], ctx, environ);
      if st != Running {
        return result + [items[i].(fields := fields)] + items[i + 1..], e, st;
      }
      result, environ := result + [items[i].(fields := fields)], e;
      i := i + 1;
    }
  }

  // ---------------------------------------------------------------------
  // Properties

  /** The positional argument, when taken, beats everything; then the
      upper-cased environment variable; then the map under the alias; then
      the map under the name; then the default. The alias is looked up even
      when it is empty, so a `""` key in the map reaches every field without
      an alias. */
  lemma SourcesPrecedence(f: Field, t: EnvTag, ctx: Ctx, environ: map<string, string>, order: nat)
    ensures var texts := Sources(f, t, ctx, environ, order);
      var name := NameOf(f);
      (texts == [] <==> "default" !in f.tags && name !in ctx.m && t.alias !in ctx.m &&
                        !Finds(environ, ToUpper(name)) && !Consumes(t, ctx, order)) &&
      (Consumes(t, ctx, order) ==> texts[|texts| - 1] == ctx.osArgs[order]) &&
      (!Consumes(t, ctx, order) && Finds(environ, ToUpper(name)) ==> texts[|texts| - 1] == environ[ToUpper(name)]) &&
      (!Consumes(t, ctx, order) && !Finds(environ, ToUpper(name)) && t.alias in ctx.m ==>
        texts[|texts| - 1] == ctx.m[t.alias]) &&
      (!Consumes(t, ctx, order) && !Finds(environ, ToUpper(name)) && t.alias !in ctx.m && name in ctx.m ==>
        texts[|texts| - 1] == ctx.m[name]) &&
      (!Consumes(t, ctx, order) && !Finds(environ, ToUpper(name)) && t.alias !in ctx.m && name !in ctx.m ==>
        texts == Present(f.tags, "default"))
    ensures t.alias == "" && "" in ctx.m ==> ctx.m[""] in Sources(f, t, ctx, environ, order)
  {
    var texts := Sources(f, t, ctx, environ, order);
    if t.alias == "" && "" in ctx.m {
      var k := |Present(f.tags, "default") + Present(ctx.m, NameOf(f))|;
      assert texts[k] == ctx.m[""];
    }
  }

  /** A settable string or integer field ends with the conversion of its
      last source, or keeps its value when it has none; no other field
      changes; and the run stops, with exit code 0, exactly when the field
      is required and that source is missing or empty. */
  lemma TurnScalarField(ctx: Ctx, j: nat, r: Run)
    requires j < |r.fields| && IsScalarKind(r.fields[j].kind)
    ensures var f := r.fields[j];
      var t := EnvTagOf(f);
      var texts := Sources(f, t, ctx, r.environ, r.order);
      var missing := texts == [] || texts[|texts| - 1] == "";
      Turn(true, ctx, j, r).fields ==
        r.fields[j := f.(value := if texts == [] then f.value else SetField(Lenient, f.kind, f.value, texts[|texts| - 1]).value)] &&
      (Turn(true, ctx, j, r).stop == Exit(0) <==> t.require && missing) &&
      (Turn(true, ctx, j, r).stop == Running <==> !(t.require && missing))
  {
    var f := r.fields[j];
    var texts := Sources(f, EnvTagOf(f), ctx, r.environ, r.order);
    ApplyAllScalarLast(Lenient, f.kind, Unset(f.value), texts);
    var a := ApplyAll(Lenient, true, f.kind, Unset(f.value), texts);
    assert !a.panicked && a.status == !(texts == [] || texts[|texts| - 1] == "");
  }

  /** A settable bool field with any source at all reports success and
      holds whether its last source is a true word, so `require` fails on
      it only when no source is present. */
  lemma TurnBoolField(ctx: Ctx, j: nat, r: Run)
    requires j < |r.fields| && r.fields[j].kind == BoolKind
    ensures var f := r.fields[j];
      var texts := Sources(f, EnvTagOf(f), ctx, r.environ, r.order);
      (texts != [] ==>
        Turn(true, ctx, j, r).fields[j].value == BoolVal(IsTrueWord(texts[|texts| - 1])) &&
        Turn(true, ctx, j, r).stop == Running) &&
      (texts == [] ==>
        Turn(true, ctx, j, r).fields[j] == f && (Turn(true, ctx, j, r).stop == Exit(0) <==> EnvTagOf(f).require))
  {
    var f := r.fields[j];
    var texts := Sources(f, EnvTagOf(f), ctx, r.environ, r.order);
    if texts != [] {
      ApplyAllLastWins(Lenient, BoolKind, Unset(f.value), texts);
    }
  }

  /** The mirror writes only under the lower-case name, only with the
      `SetENV` option or the `environ` flag, only a pair `os.Setenv` takes,
      and never for a field no source reached. */
  lemma TurnMirrorOnly(settable: bool, ctx: Ctx, j: nat, r: Run)
    requires j < |r.fields|
    ensures var f := r.fields[j];
      var e := Turn(settable, ctx, j, r).environ;
      (e != r.environ ==> (ctx.setENV || EnvTagOf(f).environ) && NameOf(f) in e && SetenvAccepts(NameOf(f), e[NameOf(f)])) &&
      (e == r.environ || (NameOf(f) in e && e == r.environ[NameOf(f) := e[NameOf(f)]])) &&
      (Sources(f, EnvTagOf(f), ctx, r.environ, r.order) == [] ==> e == r.environ)
  {
  }

  /** A settable string or integer field whose last source is non-empty
      is mirrored with that text when the option or the flag asks for it
      and `os.Setenv` takes the pair; a refused pair changes nothing. */
  lemma TurnMirror(settable: bool, ctx: Ctx, j: nat, r: Run)
    requires j < |r.fields|
    ensures var f := r.fields[j];
      var texts := Sources(f, EnvTagOf(f), ctx, r.environ, r.order);
      settable && IsScalarKind(f.kind) && texts != [] && texts[|texts| - 1] != "" && (ctx.setENV || EnvTagOf(f).environ) ==>
        Turn(settable, ctx, j, r).environ ==
          if SetenvAccepts(NameOf(f), texts[|texts| - 1]) then r.environ[NameOf(f) := texts[|texts| - 1]] else r.environ
  {
    var f := r.fields[j];
    var texts := Sources(f, EnvTagOf(f), ctx, r.environ, r.order);
    if settable && IsScalarKind(f.kind) && texts != [] && texts[|texts| - 1] != "" {
      ApplyAllScalarLast(Lenient, f.kind, Unset(f.value), texts);
      var a := ApplyAll(Lenient, true, f.kind, Unset(f.value), texts);
      assert !a.panicked && a.status && a.text == texts[|texts| - 1];
    }
  }

  /** env.go never writes to a field it cannot set, so a turn never panics. */
  lemma EnvStepNeverPanics(item: Item, ctx: Ctx, j: nat, r: Run)
    requires j < |r.fields| && r.stop == Running
    ensures Step(EnvRev, item, ctx, j, r).stop != Panic
  {
    var f := r.fields[j];
    if !Skips(EnvRev, item, f) {
      ApplyAllSettable(Lenient, f.kind, Unset(f.value), Sources(f, EnvTagOf(f), ctx, r.environ, r.order));
    }
  }

  /** parser.go writes to fields it cannot set: such a field panics exactly
      when one of its sources reaches a Set (any source of a string, bool or
      integer field), and is otherwise left alone. */
  lemma ParserStepUnsettable(item: Item, ctx: Ctx, j: nat, r: Run)
    requires j < |r.fields| && r.stop == Running
    requires !CanSet(item, r.fields[j]) && !Skips(ParserRev, item, r.fields[j])
    ensures var f := r.fields[j];
      var texts := Sources(f, EnvTagOf(f), ctx, r.environ, r.order);
      (Step(ParserRev, item, ctx, j, r).stop == Panic <==> exists i :: 0 <= i < |texts| && Writes(Lenient, f.kind, texts[i])) &&
      Step(ParserRev, item, ctx, j, r).fields[j] == f
  {
    var f := r.fields[j];
    var texts := Sources(f, EnvTagOf(f), ctx, r.environ, r.order);
    ApplyAllUnsettable(Lenient, f.kind, Unset(f.value), texts);
    var a := ApplyAll(Lenient, false, f.kind, Unset(f.value), texts);
    if !a.panicked {
      assert r.fields[j := f.(value := a.value)][j] == f;
    }
  }

  /** A turn changes no field but its own, and a skipped field not at all. */
  lemma StepFrame(rev: Rev, item: Item, ctx: Ctx, j: nat, r: Run, k: nat)
    requires j < |r.fields| && k < |r.fields|
    requires k != j || Skips(rev, item, r.fields[j])
    ensures Step(rev, item, ctx, j, r).fields[k] == r.fields[k]
  {
  }

}
