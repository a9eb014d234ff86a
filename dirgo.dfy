/** dir.go: the `Dir` path type, `Join` and `Create`. */
module DirGo {
  import opened GoText
  import opened Fields

  /** `Dir.Join`: the directory followed by every element, joined. */
  function Join(d: string, a: seq<string>): (r: string)
    ensures r == [] <==> d == [] && forall k :: 0 <= k < |a| ==> a[k] == []
  {
    assert forall k :: 0 < k < |[d] + a| ==> ([d] + a)[k] == a[k - 1];
    JoinPath([d] + a)
  }

  /** Joining more elements is joining their join onto the earlier result. */
  lemma JoinAppend(d: string, a: seq<string>, b: seq<string>)
    ensures Join(d, a + b) == Join2(Join(d, a), JoinPath(b))
  {
    assert [d] + (a + b) == ([d] + a) + b;
    JoinPathAppend([d] + a, b);
  }

  /** Whether the last element names a file: it holds one of `.`, `_`, `-`. */
  predicate NamesFile(a: seq<string>) {
    a != [] && ContainsAny(a[|a| - 1], "._-")
  }

  /** The directory `Create` ensures: `d` itself for no elements, `d` with
      all elements but a file-like last one, else `d` with all of them. */
  function EnsuredDir(d: string, a: seq<string>): string {
    if a == [] then d
    else if NamesFile(a) then Join(d, a[..|a| - 1])
    else Join(d, a)
  }

  /** The path `Create` returns is always `Join` of the same arguments; the
      ensured directory is that path itself, or its parent when the last
      element names a file. */
  lemma CreatePath(d: string, a: seq<string>)
    ensures NamesFile(a) ==> Join(d, a) == Join2(EnsuredDir(d, a), a[|a| - 1])
    ensures !NamesFile(a) ==> Join(d, a) == EnsuredDir(d, a)
  {
    if a == [] {
      assert [d] + a == [d];
      assert [d][1..] == [];
    } else if NamesFile(a) {
      var init := a[..|a| - 1];
      assert a == init + [a[|a| - 1]];
      JoinAppend(d, init, [a[|a| - 1]]);
      assert [a[|a| - 1]][1..] == [];
    }
  }

  /** `Dir.Create` with the directories that exist: the returned path, and
      the directory made by the deferred `MkdirAll` when it was missing. */
  method Create(d: string, a0: seq<string>, existing: set<string>) returns (path: string, made: Option<string>)
    ensures path == Join(d, a0)
    ensures made == if EnsuredDir(d, a0) in existing then None else Some(EnsuredDir(d, a0))
  {
    var a := a0;
    CreatePath(d, a0);
    if |a| == 0 {
      a := [d];
      path := a[0];
    } else if ContainsAny(a[|a| - 1], "._-") {
      a := [d] + a;
      a := a[0 := JoinPath(a[..|a| - 1])];
      assert ([d] + a0)[..|a0|] == [d] + a0[..|a0| - 1];
      path := Join2(a[0], a[|a| - 1]);
    } else {
      a := [d] + a;
      a := a[0 := JoinPath(a)];
      path := a[0];
    }
    // the deferred MkdirAll of a[0]
    made := if a[0] in existing then None else Some(a[0]);
  }
}
