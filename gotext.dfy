/** Stand-ins for the parts of Go's `strings` and `path/filepath` packages
    that the configuration code uses. Case mapping covers ASCII letters only,
    white space is the set of `unicode.IsSpace`, paths use `/`, and
    `JoinPath` joins without the final `Clean`. */
module GoText {

  /** strings.HasPrefix */
  predicate HasPrefix(s: string, p: string) {
    |p| <= |s| && s[..|p|] == p
  }

  /** strings.HasSuffix */
  predicate HasSuffix(s: string, p: string) {
    |p| <= |s| && s[|s| - |p|..] == p
  }

  /** The start of an occurrence of `sub` in `s` at position `i`. */
  predicate OccursAt(s: string, sub: string, i: int) {
    0 <= i && i + |sub| <= |s| && s[i..i + |sub|] == sub
  }

  /** strings.Contains */
  predicate Contains(s: string, sub: string) {
    exists i | 0 <= i <= |s| - |sub| :: OccursAt(s, sub, i)
  }

  /** Index of the first `c` in `s`, or -1 (strings.IndexByte). */
  function IndexOf(s: string, c: char): (r: int)
    ensures -1 <= r < |s|
    ensures r == -1 <==> c !in s
    ensures r >= 0 ==> s[r] == c && c !in s[..r]
  {
    if |s| == 0 then -1
    else if s[0] == c then 0
    else
      var r := IndexOf(s[1..], c);
      assert s[1..][..if r < 0 then 0 else r] == s[1..if r < 0 then 1 else r + 1];
      if r == -1 then -1 else r + 1
  }

  /** Index of the last `c` in `s`, or -1 (strings.LastIndexByte). */
  function LastIndexOf(s: string, c: char): (r: int)
    ensures -1 <= r < |s|
    ensures r >= 0 ==> s[r] == c
    ensures forall k :: r < k < |s| ==> s[k] != c
  {
    if |s| == 0 then -1
    else if s[|s| - 1] == c then |s| - 1
    else LastIndexOf(s[..|s| - 1], c)
  }

  /** strings.SplitN(s, [c], 2) for a separator that occurs in `s`:
      the text before the first `c` and the text after it. */
  function SplitFirst(s: string, c: char): (kv: (string, string))
    requires c in s
    ensures s == kv.0 + [c] + kv.1
    ensures c !in kv.0
  {
    var i := IndexOf(s, c);
    assert s == s[..i] + [c] + s[i + 1..];
    (s[..i], s[i + 1..])
  }

  /** strings.Count(s, [c]) */
  function Count(s: string, c: char): nat {
    if s == [] then 0 else (if s[0] == c then 1 else 0) + Count(s[1..], c)
  }

  lemma {:induction false} CountAppend(a: string, b: string, c: char)
    ensures Count(a + b, c) == Count(a, c) + Count(b, c)
  {
    if a != [] {
      assert (a + b)[1..] == a[1..] + b;
      CountAppend(a[1..], b, c);
    } else {
      assert a + b == b;
    }
  }

  lemma {:induction false} CountAbsent(s: string, c: char)
    requires c !in s
    ensures Count(s, c) == 0
  {
    if s != [] {
      CountAbsent(s[1..], c);
    }
  }

  /** The parts of `parts` glued back together with `c` in between. */
  function JoinWith(parts: seq<string>, c: char): string
    requires |parts| > 0
  {
    if |parts| == 1 then parts[0] else parts[0] + [c] + JoinWith(parts[1..], c)
  }

  /** strings.Split(s, [c]): the `Count + 1` pieces between separators. */
  function Split(s: string, c: char): (parts: seq<string>)
    ensures |parts| == Count(s, c) + 1
    ensures forall k :: 0 <= k < |parts| ==> c !in parts[k]
    ensures JoinWith(parts, c) == s
    decreases |s|
  {
    if c !in s then
      CountAbsent(s, c);
      [s]
    else
      var kv := SplitFirst(s, c);
      var rest := Split(kv.1, c);
      CountAppend(kv.0 + [c], kv.1, c);
      CountAppend(kv.0, [c], c);
      CountAbsent(kv.0, c);
      assert Count([c], c) == 1 by { assert [c][1..] == []; }
      assert ([kv.0] + rest)[1..] == rest;
      [kv.0] + rest
  }

  /** `s` with every leading `c` removed (strings.TrimLeft with a one-letter cutset). */
  function TrimLeftChar(s: string, c: char): (r: string)
    ensures |r| <= |s| && r == s[|s| - |r|..]
    ensures forall k :: 0 <= k < |s| - |r| ==> s[k] == c
    ensures r == [] || r[0] != c
  {
    if s != [] && s[0] == c then TrimLeftChar(s[1..], c) else s
  }

  /** `s` with every trailing `c` removed (strings.TrimRight with a one-letter cutset). */
  function TrimRightChar(s: string, c: char): (r: string)
    ensures |r| <= |s| && r == s[..|r|]
    ensures forall k :: |r| <= k < |s| ==> s[k] == c
    ensures r == [] || r[|r| - 1] != c
  {
    if s != [] && s[|s| - 1] == c then TrimRightChar(s[..|s| - 1], c) else s
  }

  /** strings.TrimSuffix */
  function TrimSuffix(s: string, suffix: string): (r: string)
    ensures HasSuffix(s, suffix) ==> r + suffix == s
    ensures !HasSuffix(s, suffix) ==> r == s
  {
    if HasSuffix(s, suffix) then s[..|s| - |suffix|] else s
  }

  /** unicode.IsSpace: the Latin-1 spaces, then the rest of the Unicode
      White_Space property. */
  predicate IsSpace(ch: char) {
    ch == ' ' || ch == '\t' || ch == '\n' || ch == '\r' || ch == '\U{000B}' ||
    ch == '\U{000C}' || ch == '\U{0085}' || ch == '\U{00A0}' ||
    ch == '\U{1680}' || ('\U{2000}' <= ch <= '\U{200A}') ||
    ch == '\U{2028}' || ch == '\U{2029}' || ch == '\U{202F}' || ch == '\U{205F}' || ch == '\U{3000}'
  }

  /** The number of white-space letters that open `s`. */
  function LeadingSpaces(s: string): (n: nat)
    ensures n <= |s|
    ensures forall k :: 0 <= k < n ==> IsSpace(s[k])
    ensures n == |s| || !IsSpace(s[n])
  {
    if s != [] && IsSpace(s[0]) then 1 + LeadingSpaces(s[1..]) else 0
  }

  /** The number of white-space letters that close `s`. */
  function TrailingSpaces(s: string): (n: nat)
    ensures n <= |s|
    ensures forall k :: |s| - n <= k < |s| ==> IsSpace(s[k])
    ensures n == |s| || !IsSpace(s[|s| - n - 1])
  {
    if s != [] && IsSpace(s[|s| - 1]) then 1 + TrailingSpaces(s[..|s| - 1]) else 0
  }

  /** strings.TrimSpace */
  function TrimSpace(s: string): (r: string)
    ensures r == [] || (!IsSpace(r[0]) && !IsSpace(r[|r| - 1]))
    ensures r == [] ==> forall k :: 0 <= k < |s| ==> IsSpace(s[k])
    ensures r != [] ==> LeadingSpaces(s) + TrailingSpaces(s) < |s| &&
                        r == s[LeadingSpaces(s)..|s| - TrailingSpaces(s)]
  {
    var lead := LeadingSpaces(s);
    if lead == |s| then []
    else
      var trail := TrailingSpaces(s);
      assert !IsSpace(s[lead]);
      s[lead..|s| - trail]
  }

  function LowerChar(ch: char): char {
    if 'A' <= ch <= 'Z' then (ch as int + 32) as char else ch
  }

  function UpperChar(ch: char): char {
    if 'a' <= ch <= 'z' then (ch as int - 32) as char else ch
  }

  /** strings.ToLower on ASCII letters. */
  function ToLower(s: string): (r: string)
    ensures |r| == |s|
    ensures forall k :: 0 <= k < |s| ==> r[k] == LowerChar(s[k])
  {
    if s == [] then [] else [LowerChar(s[0])] + ToLower(s[1..])
  }

  /** strings.ToUpper on ASCII letters. */
  function ToUpper(s: string): (r: string)
    ensures |r| == |s|
    ensures forall k :: 0 <= k < |s| ==> r[k] == UpperChar(s[k])
  {
    if s == [] then [] else [UpperChar(s[0])] + ToUpper(s[1..])
  }

  /** The number of bytes of a letter in UTF-8. */
  function RuneLen(ch: char): (n: nat)
    ensures 1 <= n <= 4
    ensures n == 1 <==> ch < '\U{0080}'
  {
    if ch < '\U{0080}' then 1
    else if ch < '\U{0800}' then 2
    else if ch < '\U{10000}' then 3
    else 4
  }

  /** `len` of a Go string: its length in UTF-8 bytes. */
  function ByteLen(s: string): (n: nat)
    ensures |s| <= n <= 4 * |s|
    ensures n == |s| <==> forall k :: 0 <= k < |s| ==> s[k] < '\U{0080}'
  {
    if s == [] then 0 else RuneLen(s[0]) + ByteLen(s[1..])
  }

  /** Whether the process environment can hold the key `k`: it is not
      empty and has no `=` and no NUL. `os.LookupEnv` finds no other key. */
  predicate LookupAccepts(k: string) {
    k != [] && '=' !in k && '\0' !in k
  }

  /** `os.LookupEnv(k)`'s `ok`: the key is one the environment can hold
      and it is set. */
  predicate Finds(environ: map<string, string>, k: string) {
    LookupAccepts(k) && k in environ
  }

  /** The environment as a lookup of `k` sees it: all of it when the
      environment can hold `k`, nothing otherwise. */
  function SeenBy(environ: map<string, string>, k: string): (v: map<string, string>)
    ensures k in v <==> Finds(environ, k)
    ensures k in v ==> v[k] == environ[k]
  {
    if LookupAccepts(k) then environ else map[]
  }

  /** Whether `os.Setenv(k, v)` takes the pair: a key the environment can
      hold, and a value without NUL. A refused pair leaves the
      environment as it is. */
  predicate SetenvAccepts(k: string, v: string) {
    LookupAccepts(k) && '\0' !in v
  }

  /** strings.ContainsAny */
  predicate ContainsAny(s: string, chars: string) {
    exists ch :: ch in chars && ch in s
  }

  /** filepath.Base on `/`-separated paths: the last element after
      trailing slashes are dropped; "." for the empty path, "/" for a
      path made of slashes. */
  function Base(p: string): (r: string)
    ensures r != []
    ensures r == "/" || '/' !in r
    ensures p != [] && '/' !in p ==> r == p
  {
    if p == [] then "."
    else
      var q := TrimRightChar(p, '/');
      if q == [] then "/"
      else
        var i := LastIndexOf(q, '/');
        assert q[|q| - 1] in q[i + 1..];
        q[i + 1..]
  }

  /** Two path pieces joined by one `/`, an empty piece dropped. */
  function Join2(a: string, b: string): string {
    if a == [] then b else if b == [] then a else a + "/" + b
  }

  /** filepath.Join without the final Clean: the non-empty elements
      separated by `/`; "" when every element is empty. */
  function JoinPath(elems: seq<string>): (r: string)
    ensures (forall k :: 0 <= k < |elems| ==> elems[k] == []) <==> r == []
  {
    if elems == [] then [] else Join2(elems[0], JoinPath(elems[1..]))
  }

  lemma Join2Assoc(a: string, b: string, c: string)
    ensures Join2(Join2(a, b), c) == Join2(a, Join2(b, c))
  {
  }

  /** Joining is associative: joining two batches of elements and then the
      two results gives the join of all the elements. */
  lemma {:induction false} JoinPathAppend(xs: seq<string>, ys: seq<string>)
    ensures JoinPath(xs + ys) == Join2(JoinPath(xs), JoinPath(ys))
  {
    if xs == [] {
      assert xs + ys == ys;
    } else {
      assert (xs + ys)[1..] == xs[1..] + ys;
      JoinPathAppend(xs[1..], ys);
      Join2Assoc(xs[0], JoinPath(xs[1..]), JoinPath(ys));
    }
  }

  lemma JoinPathPair(a: string, b: string)
    ensures JoinPath([a, b]) == Join2(a, b)
  {
    assert [a, b][1..] == [b];
    assert [b][1..] == [];
  }
}
