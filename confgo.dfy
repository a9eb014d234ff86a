/** conf.go: `Conf`, which writes the `default` tag of each top-level
    string, int and bool field of a struct and then, for a non-empty path,
    opens the JSON file that overrides them. */
module ConfGo {
  import opened GoText
  import opened Fields

  /** What `Conf` writes into one field: the `default` tag as a string, as
      an int through `ParseInt` (a bad number gives 0), or `true` for one
      of the true words; nothing for a false word, any other kind, or a
      field without the tag. */
  function DefaultWrite(f: Field): (w: Option<Value>)
    ensures "default" !in f.tags ==> w == None
    ensures w.Some? && f.kind == StringKind ==> w.value == StrVal(f.tags["default"])
    ensures f.kind == BoolKind ==> (w.Some? <==> "default" in f.tags && IsTrueWord(f.tags["default"]))
    ensures w.Some? && f.kind == BoolKind ==> w.value == BoolVal(true)
    ensures w.Some? && f.kind == IntKind ==> w.value.IntVal? && MinInt64 <= w.value.i <= MaxInt64
    ensures w.Some? ==> f.kind in {StringKind, IntKind, BoolKind}
  {
    if "default" !in f.tags then None
    else
      var s := f.tags["default"];
      match f.kind
      case StringKind => Some(StrVal(s))
      case IntKind => Some(IntVal(ParseInt(s)))
      case BoolKind => if IsTrueWord(s) then Some(BoolVal(true)) else None
      case _ => None
  }

  /** The field after `Conf`'s default pass. */
  function Defaulted(f: Field): (g: Field)
    ensures g.name == f.name && g.kind == f.kind && g.tags == f.tags && g.exported == f.exported
    ensures DefaultWrite(f).None? ==> g == f
  {
    if DefaultWrite(f).Some? then f.(value := DefaultWrite(f).value) else f
  }

  /** The default pass writes into a field it cannot set, which panics. */
  predicate Blocked(item: Item) {
    item.isStruct && exists j :: 0 <= j < |item.fields| && DefaultWrite(item.fields[j]).Some? && !CanSet(item, item.fields[j])
  }

  /** The struct after the default pass, field by field. */
  function Defaults(item: Item): (r: Item)
    ensures r.pointer == item.pointer && r.isStruct == item.isStruct && r.container == item.container
    ensures |r.fields| == |item.fields|
    ensures forall j :: 0 <= j < |r.fields| ==> r.fields[j] == if item.isStruct then Defaulted(item.fields[j]) else item.fields[j]
  {
    if item.isStruct then item.(fields := seq(|item.fields|, j requires 0 <= j < |item.fields| => Defaulted(item.fields[j])))
    else item
  }

  /** The pass changes only the value of a field that has a default. */
  lemma DefaultsFrame(item: Item, j: nat)
    requires j < |item.fields| && DefaultWrite(item.fields[j]).None?
    ensures Defaults(item).fields[j] == item.fields[j]
  {
  }

  /** The default pass is idempotent: written values are what a second
      pass would write again. */
  lemma DefaultsIdempotent(item: Item)
    ensures Defaults(Defaults(item)) == Defaults(item)
  {
    var once := Defaults(item);
    forall j | 0 <= j < |once.fields|
      ensures Defaults(once).fields[j] == once.fields[j]
    {
      if item.isStruct {
        assert DefaultWrite(once.fields[j]) == DefaultWrite(item.fields[j]);
      }
    }
  }

  /** An int default written in decimal comes back as that number. */
  lemma IntDefaultRoundTrip(f: Field, n: int)
    requires f.kind == IntKind && MinInt64 <= n <= MaxInt64
    ensures DefaultWrite(f.(tags := f.tags["default" := FormatInt(n)])) == Some(IntVal(n))
  {
    ParseIntRoundTrip(n);
  }

  /** A false word leaves a bool field as it was: the pass only ever
      writes `true`. */
  lemma FalseDefaultKeepsBool(f: Field)
    requires f.kind == BoolKind && "default" in f.tags && ToLower(f.tags["default"]) in {"off", "no", "false", "0"}
    ensures Defaulted(f) == f
  {
  }

  /** `Conf`: the default pass over the fields of a struct (a field it
      cannot set panics), then the JSON file opened when the path is not
      empty and the file exists. */
  method Conf(item: Item, path: string, files: set<string>) returns (result: Item, stop: Stop, loads: bool)
    ensures stop == Panic <==> Blocked(item)
    ensures stop != Panic ==> stop == Running && result == Defaults(item)
    ensures loads <==> stop == Running && path != "" && path in files
  {
    result, stop, loads := item, Running, false;
    if item.isStruct {
      var j := 0;
      while j < |item.fields|
        invariant 0 <= j <= |item.fields|
        invariant result.pointer == item.pointer && result.isStruct && result.container == item.container
        invariant |result.fields| == |item.fields|
        invariant forall q :: 0 <= q < j ==> result.fields[q] == Defaulted(item.fields[q])
        invariant forall q :: j <= q < |item.fields| ==> result.fields[q] == item.fields[q]
        invariant forall q :: 0 <= q < j ==> DefaultWrite(item.fields[q]).None? || CanSet(item, item.fields[q])
      {
        var f := item.fields[j];
        if "default" in f.tags {
          var s := f.tags["default"];
          var w: Option<Value> := None;
          match f.kind {
            case StringKind => w := Some(StrVal(s));
            case IntKind => w := Some(IntVal(ParseInt(s)));
            case BoolKind =>
              if IsTrueWord(s) {
                w := Some(BoolVal(true));
              }
            case _ =>
          }
          assert w == DefaultWrite(f);
          if w.Some? {
            if !CanSet(item, f) {
              assert DefaultWrite(item.fields[j]).Some? && !CanSet(item, item.fields[j]);
              return result, Panic, false;
            }
            result := result.(fields := result.fields[j := f.(value := w.value)]);
          }
        }
        assert result.fields[j] == Defaulted(item.fields[j]);
        j := j + 1;
      }
      assert result.fields == Defaults(item).fields;
    }
    if |path| > 0 && path in files {
      loads := true;
    }
  }
}
