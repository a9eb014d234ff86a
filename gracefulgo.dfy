/** graceful.go: `Manager`, which admits a struct pointer or a function as
    a graceful worker under a name and counts it in the two wait groups,
    and the one-shot `Shutdown`.
    Goroutines are modelled as units whose phase moves from launched
    (before `wgManager.Done`) to started (running its `Start`) to done
    (after `wgShutdown.Done`). */
module GracefulGo {
  import opened GoText
  import opened Fields

  /** No ASCII capital letter in `s`. */
  predicate LowerCase(s: string) {
    forall k :: 0 <= k < |s| ==> !('A' <= s[k] <= 'Z')
  }

  lemma ToLowerIsLower(s: string)
    ensures LowerCase(ToLower(s))
  {
  }

  /** The segment of a symbol's base that names a function worker: for a
      method value (a `*` in it) the last dot-separated segment without
      the `-fm` tail, otherwise the first segment (the package). */
  function Segment(n: string): (r: string)
    ensures '.' !in r
  {
    var parts := Split(n, '.');
    if Contains(n, "*") then TrimSuffix(parts[Count(n, '.')], "-fm") else parts[0]
  }

  /** The name of a function worker, from its runtime symbol: the segment
      of the symbol's base, lower-cased. */
  function WorkerName(symbol: string): (r: string)
    ensures '.' !in r && LowerCase(r)
  {
    ToLowerIsLower(Segment(Base(symbol)));
    ToLower(Segment(Base(symbol)))
  }

  /** The first `c` of `a + [c] + b` is the one after `a`. */
  lemma {:induction false} IndexAfter(a: string, b: string, c: char)
    requires c !in a
    ensures IndexOf(a + [c] + b, c) == |a|
  {
    if a != [] {
      assert (a + [c] + b)[1..] == a[1..] + [c] + b;
      IndexAfter(a[1..], b, c);
    }
  }

  /** The first piece of a split is everything before the first separator. */
  lemma SplitCons(a: string, b: string, c: char)
    requires c !in a
    ensures Split(a + [c] + b, c) == [a] + Split(b, c)
  {
    var s := a + [c] + b;
    IndexAfter(a, b, c);
    assert s[..|a|] == a && s[|a| + 1..] == b;
  }

  /** The last `/` of `p + x` is the last of `p` when `x` has none. */
  lemma {:induction false} LastIndexBefore(p: string, x: string)
    requires '/' !in x
    ensures LastIndexOf(p + x, '/') == LastIndexOf(p, '/')
  {
    if x != [] {
      var y := x[..|x| - 1];
      assert (p + x)[..|p + x| - 1] == p + y;
      assert (p + x)[|p + x| - 1] == x[|x| - 1];
      LastIndexBefore(p, y);
    } else {
      assert p + x == p;
    }
  }

  /** The base of a path is what follows its last `/`. */
  lemma BaseAfterSlash(dir: string, x: string)
    requires x != [] && '/' !in x
    ensures Base(dir + "/" + x) == x
  {
    var p := dir + "/" + x;
    assert p[|p| - 1] == x[|x| - 1];
    assert TrimRightChar(p, '/') == p;
    LastIndexBefore(dir + "/", x);
    assert p[|dir| + 1..] == x;
  }

  /** A segment with no `*` names the function after its package. */
  lemma SegmentOfFunction(pkg: string, rest: string)
    requires '.' !in pkg && '*' !in pkg && '*' !in rest
    ensures Segment(pkg + "." + rest) == pkg
  {
    var n := pkg + "." + rest;
    SplitCons(pkg, rest, '.');
    assert !Contains(n, "*") by {
      assert forall i :: 0 <= i < |n| ==> n[i] != '*';
      forall i | 0 <= i <= |n| - 1
        ensures !OccursAt(n, "*", i)
      {
        assert n[i..i + 1][0] == n[i];
      }
    }
  }

  /** Three dot-free pieces joined by dots split back into themselves. */
  lemma SplitThree(x: string, y: string, z: string)
    requires '.' !in x && '.' !in y && '.' !in z
    ensures Split(x + ['.'] + (y + ['.'] + z), '.') == [x, y, z]
  {
    var yz := y + ['.'] + z;
    assert Split(z, '.') == [z] by { CountAbsent(z, '.'); }
    SplitCons(y, z, '.');
    assert Split(yz, '.') == [y, z];
    SplitCons(x, yz, '.');
  }

  lemma StarInside(x: string, y: string, z: string)
    requires '*' in y
    ensures Contains(x + ['.'] + (y + ['.'] + z), "*")
  {
    var n := x + ['.'] + (y + ['.'] + z);
    var j :| 0 <= j < |y| && y[j] == '*';
    assert n[|x| + 1 + j] == '*';
    assert OccursAt(n, "*", |x| + 1 + j);
  }

  /** A segment with a `*` in its receiver names the method value after
      its method. */
  lemma SegmentOfMethodValue(pkg: string, recv: string, meth: string)
    requires '.' !in pkg && '.' !in recv && '.' !in meth && '*' in recv
    ensures Segment(pkg + "." + recv + "." + meth + "-fm") == meth
  {
    var tail := meth + "-fm";
    assert '.' !in tail;
    var n := pkg + ['.'] + (recv + ['.'] + tail);
    assert pkg + "." + recv + "." + meth + "-fm" == n;
    SplitThree(pkg, recv, tail);
    StarInside(pkg, recv, tail);
    assert Count(n, '.') == 2 && Split(n, '.')[2] == tail;
    assert HasSuffix(tail, "-fm") && tail[..|meth|] == meth;
    assert Segment(n) == TrimSuffix(tail, "-fm");
  }

  /** A plain function `<dir>/<pkg>.<rest>` is named after its package. */
  lemma FunctionNamedByPackage(dir: string, pkg: string, rest: string)
    requires pkg != [] && '.' !in pkg && '/' !in pkg && '/' !in rest
    requires '*' !in pkg && '*' !in rest
    ensures WorkerName(dir + "/" + (pkg + "." + rest)) == ToLower(pkg)
  {
    BaseAfterSlash(dir, pkg + "." + rest);
    SegmentOfFunction(pkg, rest);
  }

  /** A method value `<dir>/<pkg>.(*<T>).<m>-fm` is named after its method. */
  lemma MethodValueNamedByMethod(dir: string, pkg: string, recv: string, meth: string)
    requires '.' !in pkg && '.' !in recv && '.' !in meth
    requires '/' !in pkg && '/' !in recv && '/' !in meth
    requires '*' in recv
    ensures WorkerName(dir + "/" + (pkg + "." + recv + "." + meth + "-fm")) == ToLower(meth)
  {
    var n1 := pkg + ".";
    assert '/' !in n1;
    var n2 := n1 + recv;
    assert '/' !in n2;
    var n3 := n2 + ".";
    assert '/' !in n3;
    var n4 := n3 + meth;
    assert '/' !in n4;
    var n := n4 + "-fm";
    assert '/' !in n && n[|n| - 1] == 'm';
    BaseAfterSlash(dir, n);
    SegmentOfMethodValue(pkg, recv, meth);
  }

  /** The signature of a struct's `Start` method. */
  datatype StartSig = StartWithCtx | StartReturnsWorker | NoStart

  /** The signature of a function value. */
  datatype FuncSig = ReturnsWorker | TakesCtx | OtherFunc

  /** The value handed to `Manager`, as far as its reflection decides. */
  datatype Target =
    | NilTarget
    | StructPtr(start: StartSig, name: Option<string>, typeName: string)
    | FuncValue(sig: FuncSig, symbol: string)
    | OtherTarget

  /** The four graceful struct interfaces and the two function types. */
  datatype Shape = Struct4 | Struct3 | Struct2 | Struct1 | WorkerFactory | Worker

  /** What `Manager` does with a value: launch it, exit 0 on a type it
      does not support, or panic (reflecting on nil). */
  datatype Admission = Launch(shape: Shape, name: string) | Refuse | Crash

  /** `Manager`'s type switches. The struct interfaces are tried from the
      richest down; a `Name` method, when present, names the worker. */
  function Admit(g: Target): (a: Admission)
    ensures a.Launch? ==> LowerCase(a.name)
    ensures a.Crash? <==> g.NilTarget?
    ensures a.Refuse? <==> g.OtherTarget? || (g.StructPtr? && g.start.NoStart?) || (g.FuncValue? && g.sig.OtherFunc?)
    ensures a.Launch? && g.StructPtr? ==>
      (a.shape in {Struct4, Struct3} <==> g.start.StartWithCtx?) &&
      (a.shape in {Struct4, Struct2} <==> g.name.Some?) &&
      a.name == ToLower(if g.name.Some? then g.name.value else g.typeName)
    ensures a.Launch? && g.FuncValue? ==> a.name == WorkerName(g.symbol) && (a.shape == Worker <==> g.sig.TakesCtx?)
  {
    ToLowerIsLower(if g.StructPtr? && g.name.Some? then g.name.value else if g.StructPtr? then g.typeName else "");
    match g
    case NilTarget => Crash
    case StructPtr(start, name, typeName) =>
      if start.StartWithCtx? && name.Some? then Launch(Struct4, ToLower(name.value))
      else if start.StartWithCtx? then Launch(Struct3, ToLower(typeName))
      else if start.StartReturnsWorker? && name.Some? then Launch(Struct2, ToLower(name.value))
      else if start.StartReturnsWorker? then Launch(Struct1, ToLower(typeName))
      else Refuse
    case FuncValue(sig, symbol) =>
      if sig.ReturnsWorker? then Launch(WorkerFactory, WorkerName(symbol))
      else if sig.TakesCtx? then Launch(Worker, WorkerName(symbol))
      else Refuse
    case OtherTarget => Refuse
  }

  /** Where a worker's goroutine is. */
  datatype Phase = Launched | Started | Finished

  datatype Unit = Unit(shape: Shape, name: string, phase: Phase)

  /** How many units are in phase `p`. */
  function CountPhase(units: seq<Unit>, p: Phase): (n: nat)
    ensures n <= |units|
  {
    if units == [] then 0
    else CountPhase(units[..|units| - 1], p) + (if units[|units| - 1].phase == p then 1 else 0)
  }

  /** No unit is counted exactly when none is in that phase. */
  lemma {:induction false} CountPhaseZero(units: seq<Unit>, p: Phase)
    ensures CountPhase(units, p) == 0 <==> forall i :: 0 <= i < |units| ==> units[i].phase != p
  {
    if units != [] {
      var init := units[..|units| - 1];
      CountPhaseZero(init, p);
      assert forall i :: 0 <= i < |init| ==> init[i] == units[i];
    }
  }

  /** Moving one unit to a new phase moves it from one count to another. */
  lemma {:induction false} CountPhaseUpdate(units: seq<Unit>, i: nat, u: Unit, p: Phase)
    requires i < |units|
    ensures CountPhase(units[i := u], p) ==
      CountPhase(units, p) - (if units[i].phase == p then 1 else 0) + (if u.phase == p then 1 else 0)
  {
    var n := |units| - 1;
    if i < n {
      CountPhaseUpdate(units[..n], i, u, p);
      assert units[i := u][..n] == units[..n][i := u];
    } else {
      assert units[i := u][..n] == units[..n];
    }
  }

  lemma CountPhaseSnoc(units: seq<Unit>, u: Unit, p: Phase)
    ensures CountPhase(units + [u], p) == CountPhase(units, p) + (if u.phase == p then 1 else 0)
  {
    assert (units + [u])[..|units|] == units;
  }

  /** The package state: the two wait groups, the workers placed under
      management, the `shutdown` flag,
      and whether a `Manager` call ended the process. */
  class Registry {
    var wgManager: int
    var wgShutdown: int
    var units: seq<Unit>
    var shutdown: bool
    var halted: bool

    /** Every launched unit is owed one `wgManager.Done`, every unit not
        yet finished one `wgShutdown.Done`; a `Manager` call that ended
        the process added to both and launched nothing. */
    predicate Valid()
      reads this
    {
      var extra := if halted then 1 else 0;
      wgManager == CountPhase(units, Launched) + extra &&
      wgShutdown == CountPhase(units, Launched) + CountPhase(units, Started) + extra
    }

    /** The package variables at start-up. */
    constructor ()
      ensures Valid() && units == [] && !shutdown && !halted
    {
      wgManager, wgShutdown, units := 0, 0, [];
      shutdown, halted := false, false;
    }

    /** The wait groups never go negative, and while the process runs
        `wgManager` is zero exactly when every worker has started and
        `wgShutdown` exactly when every worker has finished. */
    lemma Counters()
      requires Valid()
      ensures wgManager >= 0 && wgShutdown >= wgManager
      ensures !halted ==> (wgManager == 0 <==> forall i :: 0 <= i < |units| ==> units[i].phase != Launched)
      ensures !halted ==> (wgShutdown == 0 <==> forall i :: 0 <= i < |units| ==> units[i].phase == Finished)
    {
      CountPhaseZero(units, Launched);
      CountPhaseZero(units, Started);
      if !halted {
        assert wgShutdown == 0 <==> CountPhase(units, Launched) == 0 && CountPhase(units, Started) == 0;
      }
    }

    /** `Manager`: both wait groups grow by one; a supported value is
        launched, anything else ends the process. */
    method Manager(g: Target) returns (stop: Stop)
      requires Valid() && !halted
      modifies this
      ensures Valid()
      ensures wgManager == old(wgManager) + 1 && wgShutdown == old(wgShutdown) + 1
      ensures shutdown == old(shutdown)
      ensures Admit(g).Launch? ==>
        units == old(units) + [Unit(Admit(g).shape, Admit(g).name, Launched)] && stop == Running && !halted
      ensures Admit(g).Refuse? ==> units == old(units) && stop == Exit(0) && halted
      ensures Admit(g).Crash? ==> units == old(units) && stop == Panic && halted
    {
      var a := Admit(g);
      if a.Launch? {
        Enlist(Unit(a.shape, a.name, Launched));
        stop := Running;
      } else {
        Halt();
        stop := if a.Refuse? then Exit(0) else Panic;
      }
    }

    /** Both wait groups grow by one for a launched worker. */
    method Enlist(u: Unit)
      requires Valid() && !halted && u.phase == Launched
      modifies this
      ensures Valid() && !halted && units == old(units) + [u]
      ensures wgManager == old(wgManager) + 1 && wgShutdown == old(wgShutdown) + 1
      ensures shutdown == old(shutdown)
    {
      ghost var launched, started := CountPhase(units, Launched), CountPhase(units, Started);
      CountPhaseSnoc(units, u, Launched);
      CountPhaseSnoc(units, u, Started);
      units, wgManager, wgShutdown := units + [u], wgManager + 1, wgShutdown + 1;
      assert CountPhase(units, Launched) == launched + 1;
      assert CountPhase(units, Started) == started;
    }

    /** Both wait groups grow by one before the process ends. */
    method Halt()
      requires Valid() && !halted
      modifies this
      ensures Valid() && halted && units == old(units)
      ensures wgManager == old(wgManager) + 1 && wgShutdown == old(wgShutdown) + 1
      ensures shutdown == old(shutdown)
    {
      wgManager := wgManager + 1;
      wgShutdown := wgShutdown + 1;
      halted := true;
    }

    /** A worker's goroutine reaches `wgManager.Done` and calls `Start`. */
    method Begin(i: nat)
      requires Valid() && i < |units| && units[i].phase == Launched
      modifies this
      ensures Valid()
      ensures units == old(units)[i := old(units)[i].(phase := Started)]
      ensures wgManager == old(wgManager) - 1 && wgShutdown == old(wgShutdown)
      ensures shutdown == old(shutdown) && halted == old(halted)
    {
      CountPhaseUpdate(units, i, units[i].(phase := Started), Launched);
      CountPhaseUpdate(units, i, units[i].(phase := Started), Started);
      units := units[i := units[i].(phase := Started)];
      wgManager := wgManager - 1;
    }

    /** A worker's `Start` returns and its goroutine reaches `wgShutdown.Done`. */
    method Finish(i: nat)
      requires Valid() && i < |units| && units[i].phase == Started
      modifies this
      ensures Valid()
      ensures units == old(units)[i := old(units)[i].(phase := Finished)]
      ensures wgShutdown == old(wgShutdown) - 1 && wgManager == old(wgManager)
      ensures shutdown == old(shutdown) && halted == old(halted)
    {
      CountPhaseUpdate(units, i, units[i].(phase := Finished), Launched);
      CountPhaseUpdate(units, i, units[i].(phase := Finished), Started);
      units := units[i := units[i].(phase := Finished)];
      wgShutdown := wgShutdown - 1;
    }

    /** `Shutdown` sets itself up only on its first call. */
    method Shutdown() returns (armed: bool)
      modifies `shutdown
      ensures armed == !old(shutdown) && shutdown
    {
      armed := !shutdown;
      if !shutdown {
        shutdown := true;
      }
    }
  }
}
