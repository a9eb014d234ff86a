/** expire.go: the `Expire` file expiration manager: directories with a
    maximum age each, a sweep that removes every file older than its
    directory's age, and `NewExpire`, which places one under `Manager`.
    Durations and times are nanoseconds; the clock and the directory
    listings are parameters. */
module ExpireGo {
  import opened GoText
  import opened Fields
  import opened GracefulGo

  const Second: int := 1_000_000_000
  const Hour: int := 3600 * Second
  const Day: int := 24 * Hour

  /** A directory entry: its name and modification time. */
  datatype Entry = Entry(name: string, modTime: int)

  /** `time.Now().Truncate(time.Second)` */
  function TruncateSecond(now: int): (t: int)
    ensures t <= now < t + Second && t % Second == 0
  {
    now - now % Second
  }

  /** Whether a file stamped `modTime` has outlived `age` at `now`. */
  predicate Expired(modTime: int, age: int, now: int) {
    modTime + age < TruncateSecond(now)
  }

  /** The entries of a directory as `ReadDir` gives them; none when it
      cannot be read. */
  function Listing(listing: map<string, seq<Entry>>, dir: string): seq<Entry> {
    if dir in listing then listing[dir] else []
  }

  /** The files one directory's sweep removes, in listing order. */
  function DirRemovals(dir: string, age: int, entries: seq<Entry>, now: int): (r: seq<string>)
    ensures forall p :: p in r <==> exists j :: 0 <= j < |entries| && Expired(entries[j].modTime, age, now) && p == Join2(dir, entries[j].name)
  {
    if entries == [] then []
    else
      var e := entries[|entries| - 1];
      var init := entries[..|entries| - 1];
      var r := DirRemovals(dir, age, init, now) + (if Expired(e.modTime, age, now) then [Join2(dir, e.name)] else []);
      assert forall j :: 0 <= j < |init| ==> init[j] == entries[j];
      r
  }

  /** The files a sweep removes, directory by directory. */
  function Removals(path: seq<string>, age: seq<int>, listing: map<string, seq<Entry>>, now: int): seq<string>
    requires |path| == |age|
  {
    if path == [] then []
    else
      var n := |path| - 1;
      Removals(path[..n], age[..n], listing, now) + DirRemovals(path[n], age[n], Listing(listing, path[n]), now)
  }

  /** Whether the sweep of the `i`th registered directory removes `p`. */
  predicate RemovedBy(path: seq<string>, age: seq<int>, listing: map<string, seq<Entry>>, now: int, p: string, i: nat)
    requires |path| == |age| && i < |path|
  {
    p in DirRemovals(path[i], age[i], Listing(listing, path[i]), now)
  }

  /** A file is removed exactly when it is listed in a registered
      directory and is older than that directory's age. */
  lemma {:induction false} RemovalsExactly(path: seq<string>, age: seq<int>, listing: map<string, seq<Entry>>, now: int, p: string)
    requires |path| == |age|
    ensures p in Removals(path, age, listing, now) <==>
      exists i: nat :: i < |path| && RemovedBy(path, age, listing, now, p, i)
  {
    if path != [] {
      var n := |path| - 1;
      RemovalsExactly(path[..n], age[..n], listing, now, p);
      forall i: nat | i < n
        ensures RemovedBy(path[..n], age[..n], listing, now, p, i) == RemovedBy(path, age, listing, now, p, i)
      {
        assert path[..n][i] == path[i] && age[..n][i] == age[i];
      }
      assert p in Removals(path, age, listing, now) <==>
        p in Removals(path[..n], age[..n], listing, now) || RemovedBy(path, age, listing, now, p, n);
    }
  }

  /** A file that has expired stays expired as time goes on. */
  lemma ExpiredLater(modTime: int, age: int, now: int, later: int)
    requires now <= later && Expired(modTime, age, now)
    ensures Expired(modTime, age, later)
  {
    var t, u := TruncateSecond(now), TruncateSecond(later);
    assert t == Second * (t / Second) && u == Second * (u / Second);
  }

  /** Every file a sweep removes would be removed by a later sweep over
      the same listing. */
  lemma DirRemovalsGrow(dir: string, age: int, entries: seq<Entry>, now: int, later: int, p: string)
    requires now <= later && p in DirRemovals(dir, age, entries, now)
    ensures p in DirRemovals(dir, age, entries, later)
  {
    var j :| 0 <= j < |entries| && Expired(entries[j].modTime, age, now) && p == Join2(dir, entries[j].name);
    ExpiredLater(entries[j].modTime, age, now, later);
  }

  /** The entry loop of `Expire` for one directory, with `t` the
      truncated clock. */
  method SweepDir(dir: string, age: int, info: seq<Entry>, t: int, now: int) returns (here: seq<string>)
    requires t == TruncateSecond(now)
    ensures here == DirRemovals(dir, age, info, now)
  {
    here := [];
    var j := 0;
    while j < |info|
      invariant 0 <= j <= |info|
      invariant here == DirRemovals(dir, age, info[..j], now)
    {
      assert info[..j + 1][..j] == info[..j];
      if info[j].modTime + age < t {
        here := here + [Join2(dir, info[j].name)];
      }
      j := j + 1;
    }
    assert info[..j] == info;
  }

  /** The `Expire` struct. */
  class Expire {
    var checkOn: int
    var report: bool
    var path: seq<string>
    var age: seq<int>

    /** Paths and ages pair up; `Add` never registers an empty path or a
        zero age. */
    predicate Valid()
      reads this
    {
      |path| == |age| &&
      (forall i :: 0 <= i < |path| ==> path[i] != "") &&
      (forall i :: 0 <= i < |age| ==> age[i] != 0)
    }

    /** `new(Expire)` */
    constructor ()
      ensures Valid() && checkOn == 0 && !report && path == [] && age == []
    {
      checkOn, report, path, age := 0, false, [], [];
    }

    /** `Report` toggles reporting. */
    method Report()
      modifies `report
      ensures report == !old(report)
    {
      report := !report;
    }

    /** `Add`: an empty path is ignored; a zero age means a day. */
    method Add(p: string, a: int)
      requires Valid()
      modifies `path, `age
      ensures Valid()
      ensures p == "" ==> path == old(path) && age == old(age)
      ensures p != "" ==> path == old(path) + [p] && age == old(age) + [if a == 0 then Day else a]
    {
      if |p| > 0 {
        path := path + [p];
        var a' := a;
        if a' == 0 {
          a' := Day;
        }
        age := age + [a'];
      }
    }

    /** `Expire`: every listed file older than its directory's age is
        removed (the removals are returned in order). */
    method Sweep(now: int, listing: map<string, seq<Entry>>) returns (removed: seq<string>)
      requires Valid()
      ensures removed == Removals(path, age, listing, now)
    {
      var t := now - now % Second;
      removed := [];
      var i := 0;
      while i < |path|
        invariant 0 <= i <= |path|
        invariant removed == Removals(path[..i], age[..i], listing, now)
      {
        var here := SweepDir(path[i], age[i], Listing(listing, path[i]), t, now);
        assert path[..i + 1][..i] == path[..i] && age[..i + 1][..i] == age[..i];
        removed := removed + here;
        i := i + 1;
      }
      assert path[..i] == path && age[..i] == age;
    }

    /** `Start` up to its ticker: a zero check interval becomes an hour,
        then a first sweep runs. */
    method Start(now: int, listing: map<string, seq<Entry>>) returns (removed: seq<string>)
      requires Valid()
      modifies `checkOn
      ensures checkOn == if old(checkOn) == 0 then Hour else old(checkOn)
      ensures removed == Removals(path, age, listing, now)
    {
      if checkOn == 0 {
        checkOn := Hour;
      }
      removed := Sweep(now, listing);
    }
  }

  /** The non-empty paths, in order. */
  function NonEmpty(paths: seq<string>): (r: seq<string>)
    ensures forall k :: 0 <= k < |r| ==> r[k] != ""
    ensures forall p :: p in r <==> p in paths && p != ""
  {
    if paths == [] then []
    else NonEmpty(paths[..|paths| - 1]) + (if paths[|paths| - 1] != "" then [paths[|paths| - 1]] else [])
  }

  /** All ages a day. */
  predicate AllDays(age: seq<int>) {
    forall k :: 0 <= k < |age| ==> age[k] == Day
  }

  /** How `Manager` sees an `*Expire`: a struct with `Start(ctx)` and no
      `Name`. */
  const ExpireTarget := StructPtr(StartWithCtx, None, "Expire")

  /** An `*Expire` is launched as a `Start(ctx)` struct named `expire`. */
  lemma ExpireAdmitted()
    ensures Admit(ExpireTarget) == Launch(Struct3, "expire")
  {
    assert ToLower("Expire") == "expire";
  }

  /** The loop of `NewExpire`: every non-empty path added at the default
      age of a day. */
  method AddAll(paths: seq<string>) returns (ex: Expire)
    ensures fresh(ex)
    ensures ex.Valid() && ex.path == NonEmpty(paths) && |ex.age| == |ex.path| && AllDays(ex.age)
    ensures ex.checkOn == 0 && !ex.report
  {
    ex := new Expire();
    var i := 0;
    while i < |paths|
      invariant 0 <= i <= |paths|
      invariant ex.Valid() && ex.path == NonEmpty(paths[..i]) && AllDays(ex.age)
      invariant ex.checkOn == 0 && !ex.report
      invariant fresh(ex)
    {
      assert paths[..i + 1][..i] == paths[..i];
      ex.Add(paths[i], 0);
      i := i + 1;
    }
    assert paths[..i] == paths;
  }

  /** `NewExpire`: a new `Expire` with every non-empty path at the default
      age of a day, placed under management. */
  method NewExpire(paths: seq<string>, reg: Registry) returns (ex: Expire, stop: Stop)
    requires reg.Valid() && !reg.halted
    modifies reg
    ensures ex.Valid() && ex.path == NonEmpty(paths) && |ex.age| == |ex.path| && AllDays(ex.age)
    ensures ex.checkOn == 0 && !ex.report
    ensures stop == Running && reg.Valid() && reg.units == old(reg.units) + [Unit(Struct3, "expire", Launched)]
  {
    ex := AddAll(paths);
    ExpireAdmitted();
    stop := reg.Manager(ExpireTarget);
  }
}
