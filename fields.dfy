/** The reflection view of a configuration struct, as the three parser
    revisions see it: each field has a name, a kind, its struct tags, an
    exported flag and a current value. Also the `strconv` integer parsers
    that the int and uint conversions call, and the process inputs. */
module Fields {
  import opened GoText

  datatype Option<T> = None | Some(value: T)

  /** `os.Args`: the runtime always supplies the program name first. */
  type Argv = a: seq<string> | |a| >= 1 witness [""]

  /** The reflect.Kind values the conversions distinguish. */
  datatype Kind = StringKind | BoolKind | IntKind | Int64Kind | UintKind | Uint64Kind | StructKind | OtherKind

  datatype Value = StrVal(s: string) | BoolVal(b: bool) | IntVal(i: int) | OtherVal

  datatype Field = Field(name: string, kind: Kind, tags: map<string, string>, exported: bool, value: Value)

  /** One element of a `cfg ...interface{}` argument: whether it was passed
      by pointer, whether what it points to is a struct, whether it is an
      array, chan, map or slice passed by value (a type that, like a
      pointer, has an `Elem`), and the fields. */
  datatype Item = Item(pointer: bool, isStruct: bool, container: bool, fields: seq<Field>)

  /** How a run ends: it goes on, `os.Exit(code)`, or an unrecovered panic. */
  datatype Stop = Running | Exit(code: int) | Panic

  /** What a `setField` call yields: the field's new value and the
      returned `(string, bool)` pair. */
  datatype Conv = Conv(value: Value, text: string, ok: bool)

  /** reflect.Value.CanSet: only exported fields reached through a pointer. */
  predicate CanSet(item: Item, f: Field) {
    item.pointer && f.exported
  }

  predicate IsIntKind(k: Kind) {
    k == IntKind || k == Int64Kind
  }

  predicate IsUintKind(k: Kind) {
    k == UintKind || k == Uint64Kind
  }

  const MinInt64: int := -0x8000_0000_0000_0000
  const MaxInt64: int := 0x7FFF_FFFF_FFFF_FFFF
  const MaxUint64: int := 0xFFFF_FFFF_FFFF_FFFF

  predicate IsDigit(ch: char) {
    '0' <= ch <= '9'
  }

  predicate AllDigits(s: string) {
    forall k :: 0 <= k < |s| ==> IsDigit(s[k])
  }

  /** The number a run of decimal digits spells. */
  function DecimalValue(s: string): nat
    requires AllDigits(s)
  {
    if s == [] then 0 else 10 * DecimalValue(s[..|s| - 1]) + (s[|s| - 1] as int - '0' as int)
  }

  /** The decimal rendering of `n` (strconv.FormatUint). */
  function Decimal(n: nat): (s: string)
    ensures |s| > 0 && AllDigits(s)
  {
    if n < 10 then [('0' as int + n) as char]
    else Decimal(n / 10) + [('0' as int + n % 10) as char]
  }

  lemma {:induction false} DecimalRoundTrip(n: nat)
    ensures DecimalValue(Decimal(n)) == n
  {
    if n >= 10 {
      var s := Decimal(n);
      assert s[..|s| - 1] == Decimal(n / 10);
      DecimalRoundTrip(n / 10);
    }
  }

  /** The length of the run of digits that opens `s`. */
  function DigitRun(s: string): (n: nat)
    ensures n <= |s| && AllDigits(s[..n])
    ensures n == |s| || !IsDigit(s[n])
  {
    if s != [] && IsDigit(s[0]) then
      var n := 1 + DigitRun(s[1..]);
      assert s[..n] == [s[0]] + s[1..][..n - 1];
      n
    else 0
  }

  /** Outcome of strconv.ParseUint(s, 10, 64): a value and an error class. */
  datatype UintScan = UintOk(n: nat) | SyntaxError | RangeError

  /** ParseUint reads digits left to right: a value past 2^64-1 stops it
      with a range error, a non-digit (or nothing at all) with a syntax
      error, whichever comes first. */
  function ScanUint(s: string): (r: UintScan)
    ensures r.UintOk? <==> s != [] && AllDigits(s) && DecimalValue(s) <= MaxUint64
    ensures r.UintOk? ==> r.n == DecimalValue(s)
  {
    if s == [] then SyntaxError
    else
      var p := DigitRun(s);
      var v := DecimalValue(s[..p]);
      if v > MaxUint64 then
        assert p == |s| ==> s[..p] == s;
        RangeError
      else if p == |s| then
        assert s[..p] == s;
        UintOk(v)
      else SyntaxError
  }

  /** strconv.ParseUint(s, 10, 0) with the error dropped: the maximum on
      overflow, 0 on a syntax error. */
  function ParseUint(s: string): (n: int)
    ensures 0 <= n <= MaxUint64
  {
    match ScanUint(s)
    case UintOk(v) => v
    case SyntaxError => 0
    case RangeError => MaxUint64
  }

  /** strconv.ParseInt(s, 10, 0) with the error dropped: an optional sign,
      then ParseUint's rules; out-of-range values clamp to the int64 bounds. */
  function ParseInt(s: string): (n: int)
    ensures MinInt64 <= n <= MaxInt64
  {
    if s == [] then 0
    else
      var neg := s[0] == '-';
      var body := if s[0] == '-' || s[0] == '+' then s[1..] else s;
      match ScanUint(body)
      case SyntaxError => 0
      case RangeError => if neg then MinInt64 else MaxInt64
      case UintOk(u) =>
        if neg then (if u > -MinInt64 then MinInt64 else -(u as int))
        else (if u > MaxInt64 then MaxInt64 else u)
  }

  /** strconv.FormatInt(n, 10) */
  function FormatInt(n: int): string {
    if n < 0 then "-" + Decimal(-n) else Decimal(n)
  }

  /** Every int64 survives a trip through its decimal text. */
  lemma ParseIntRoundTrip(n: int)
    requires MinInt64 <= n <= MaxInt64
    ensures ParseInt(FormatInt(n)) == n
  {
    if n < 0 {
      var s := FormatInt(n);
      assert s[1..] == Decimal(-n);
      DecimalRoundTrip(-n);
    } else {
      DecimalRoundTrip(n);
      var d := Decimal(n);
      assert d[0] != '-' && d[0] != '+' by { assert IsDigit(d[0]); }
    }
  }

  /** Every uint64 survives a trip through its decimal text. */
  lemma ParseUintRoundTrip(n: nat)
    requires n <= MaxUint64
    ensures ParseUint(Decimal(n)) == n
  {
    DecimalRoundTrip(n);
  }

  /** The value of `k` in `m`, "" when absent: Go's read of a missing key. */
  function Lookup(m: map<string, string>, k: string): string {
    if k in m then m[k] else ""
  }

  /** `[m[k]]` when the key is present, otherwise nothing: the texts
      that `if val, ok := m[k]; ok { ... }` passes on. */
  function Present(m: map<string, string>, k: string): (r: seq<string>)
    ensures |r| <= 1
    ensures r == [] <==> k !in m
    ensures k in m ==> r == [m[k]]
  {
    if k in m then [m[k]] else []
  }

  // ---------------------------------------------------------------------
  // setField: the two conversion rule sets

  /** The bool words init.go's `setField` recognises, in any letter case:
      `Some(true)`, `Some(false)`, or `None` for any other text. */
  function StrictBoolWord(s: string): (w: Option<bool>)
    ensures w == Some(true) <==> ToLower(s) in {"on", "yes", "true", "1"}
    ensures w == Some(false) <==> ToLower(s) in {"off", "no", "false", "0"}
  {
    var l := ToLower(s);
    if l == "on" || l == "yes" || l == "true" || l == "1" then Some(true)
    else if l == "off" || l == "no" || l == "false" || l == "0" then Some(false)
    else None
  }

  /** The words env.go, parser.go and conf.go read as true, in any letter case. */
  predicate IsTrueWord(s: string) {
    var l := ToLower(s);
    l == "on" || l == "yes" || l == "ok" || l == "true" || l == "1"
  }

  /** init.go's `setField` (Strict) or the identical `setField` of env.go
      and parser.go (Lenient). */
  datatype Setter = Strict | Lenient

  /** One `setField(v, s)` call on a field of kind `kind` holding `prior`:
      the field's new value and the returned `(text, ok)`. */
  function SetField(setter: Setter, kind: Kind, prior: Value, s: string): (c: Conv)
    ensures c.ok ==> c.text == s
    ensures !c.ok ==> c.text == ""
  {
    match kind
    case StringKind => Conv(StrVal(s), if s != "" then s else "", s != "")
    case IntKind => Conv(IntVal(ParseInt(s)), if s != "" then s else "", s != "")
    case Int64Kind => Conv(IntVal(ParseInt(s)), if s != "" then s else "", s != "")
    case UintKind => Conv(IntVal(ParseUint(s)), if s != "" then s else "", s != "")
    case Uint64Kind => Conv(IntVal(ParseUint(s)), if s != "" then s else "", s != "")
    case BoolKind =>
      if setter == Lenient then Conv(BoolVal(IsTrueWord(s)), s, true)
      else (match StrictBoolWord(s)
            case Some(b) => Conv(BoolVal(b), s, true)
            case None => Conv(prior, "", false))
    case StructKind => Conv(prior, "", false)
    case OtherKind => Conv(prior, "", false)
  }

  /** Whether the call reaches a reflect `Set`, which panics on a field
      that cannot be set. */
  predicate Writes(setter: Setter, kind: Kind, s: string) {
    match kind
    case BoolKind => setter == Lenient || StrictBoolWord(s).Some?
    case StructKind => false
    case OtherKind => false
    case _ => true
  }

  /** String and integer fields report success exactly for non-empty text,
      whether or not the number parsed; the value stored is the parse. */
  lemma SetFieldStatus(setter: Setter, kind: Kind, prior: Value, s: string)
    requires kind in {StringKind, IntKind, Int64Kind, UintKind, Uint64Kind}
    ensures SetField(setter, kind, prior, s).ok <==> s != ""
    ensures kind == StringKind ==> SetField(setter, kind, prior, s).value == StrVal(s)
    ensures IsIntKind(kind) ==> SetField(setter, kind, prior, s).value == IntVal(ParseInt(s))
    ensures IsUintKind(kind) ==> SetField(setter, kind, prior, s).value == IntVal(ParseUint(s))
  {
  }

  /** The Strict rules: a recognised word sets the bool and succeeds, any
      other text leaves the field as it was and fails. The Lenient rules:
      a true word sets true, anything else sets false, and it always
      succeeds. */
  lemma SetFieldBool(prior: Value, s: string)
    ensures SetField(Strict, BoolKind, prior, s).ok <==> StrictBoolWord(s).Some?
    ensures StrictBoolWord(s).Some? ==> SetField(Strict, BoolKind, prior, s).value == BoolVal(StrictBoolWord(s).value)
    ensures StrictBoolWord(s).None? ==> SetField(Strict, BoolKind, prior, s).value == prior
    ensures SetField(Lenient, BoolKind, prior, s) == Conv(BoolVal(IsTrueWord(s)), s, true)
  {
  }

  /** Kinds outside string, bool, int and uint are left alone and fail. */
  lemma SetFieldUnsupported(setter: Setter, kind: Kind, prior: Value, s: string)
    requires kind == StructKind || kind == OtherKind
    ensures SetField(setter, kind, prior, s) == Conv(prior, "", false)
    ensures !Writes(setter, kind, s)
  {
  }

  lemma ToLowerIdempotent(s: string)
    ensures ToLower(ToLower(s)) == ToLower(s)
  {
  }

  /** Word recognition ignores letter case. */
  lemma BoolWordsIgnoreCase(s: string)
    ensures StrictBoolWord(ToLower(s)) == StrictBoolWord(s)
    ensures IsTrueWord(ToLower(s)) == IsTrueWord(s)
  {
    ToLowerIdempotent(s);
  }

  /** Setting the same text twice is setting it once. */
  lemma SetFieldIdempotent(setter: Setter, kind: Kind, prior: Value, s: string)
    ensures SetField(setter, kind, SetField(setter, kind, prior, s).value, s) == SetField(setter, kind, prior, s)
  {
  }

  /** A bool field set from the text of a bool reads back that bool. */
  lemma SetFieldBoolRoundTrip(setter: Setter, prior: Value, b: bool)
    ensures SetField(setter, BoolKind, prior, if b then "true" else "false").value == BoolVal(b)
  {
    var s := if b then "true" else "false";
    if b {
      assert ToLower("true") == "true";
    } else {
      assert ToLower("false") == "false";
    }
    if setter == Lenient {
      assert IsTrueWord(s) == b;
    } else {
      assert StrictBoolWord(s) == Some(b);
    }
  }

  /** An int field set from the decimal text of an int64 reads back that
      number, and a uint field likewise for a uint64. */
  lemma SetFieldIntRoundTrip(setter: Setter, prior: Value, n: int)
    requires MinInt64 <= n <= MaxInt64
    ensures SetField(setter, IntKind, prior, FormatInt(n)) == Conv(IntVal(n), FormatInt(n), true)
    ensures 0 <= n ==> SetField(setter, UintKind, prior, FormatInt(n)) == Conv(IntVal(n), FormatInt(n), true)
  {
    ParseIntRoundTrip(n);
    if 0 <= n {
      ParseUintRoundTrip(n);
    }
  }

  // ---------------------------------------------------------------------
  // a run of setField calls on one field

  /** The field value and the `value, status` pair after a run of
      `value, status = setField(...)` statements; `panicked` once a Set
      hit a field that cannot be set. */
  datatype Applied = Applied(value: Value, text: string, status: bool, panicked: bool)

  /** The pair before any statement: the field's value, `""`, `false`. */
  function Unset(v: Value): Applied {
    Applied(v, "", false, false)
  }

  /** One `value, status = setField(field, s)` statement. */
  function SetOnce(setter: Setter, settable: bool, kind: Kind, a: Applied, s: string): Applied {
    if a.panicked then a
    else if !settable && Writes(setter, kind, s) then a.(panicked := true)
    else
      var c := SetField(setter, kind, a.value, s);
      Applied(c.value, c.text, c.ok, false)
  }

  /** The statements for `texts`, in order. */
  function ApplyAll(setter: Setter, settable: bool, kind: Kind, a: Applied, texts: seq<string>): Applied
    decreases |texts|
  {
    if texts == [] then a else ApplyAll(setter, settable, kind, SetOnce(setter, settable, kind, a, texts[0]), texts[1..])
  }

  lemma {:induction false} ApplyAllSnoc(setter: Setter, settable: bool, kind: Kind, a: Applied, texts: seq<string>, s: string)
    ensures ApplyAll(setter, settable, kind, a, texts + [s]) ==
      SetOnce(setter, settable, kind, ApplyAll(setter, settable, kind, a, texts), s)
    decreases |texts|
  {
    if texts == [] {
      assert texts + [s] == [s];
    } else {
      assert (texts + [s])[1..] == texts[1..] + [s];
      ApplyAllSnoc(setter, settable, kind, SetOnce(setter, settable, kind, a, texts[0]), texts[1..], s);
    }
  }

  lemma {:induction false} ApplyAllAppend(setter: Setter, settable: bool, kind: Kind, a: Applied, xs: seq<string>, ys: seq<string>)
    ensures ApplyAll(setter, settable, kind, a, xs + ys) ==
      ApplyAll(setter, settable, kind, ApplyAll(setter, settable, kind, a, xs), ys)
    decreases |xs|
  {
    if xs == [] {
      assert xs + ys == ys;
    } else {
      assert (xs + ys)[1..] == xs[1..] + ys;
      ApplyAllAppend(setter, settable, kind, SetOnce(setter, settable, kind, a, xs[0]), xs[1..], ys);
    }
  }

  /** The statement guarded by `if val, ok := m[k]; ok`. */
  lemma ApplyAllPresent(setter: Setter, settable: bool, kind: Kind, a: Applied, m: map<string, string>, k: string)
    ensures ApplyAll(setter, settable, kind, a, Present(m, k)) ==
      if k in m then SetOnce(setter, settable, kind, a, m[k]) else a
  {
    if k in m {
      assert Present(m, k)[1..] == [];
    }
  }

  lemma ApplyAllOne(setter: Setter, settable: bool, kind: Kind, a: Applied, s: string)
    ensures ApplyAll(setter, settable, kind, a, [s]) == SetOnce(setter, settable, kind, a, s)
  {
    assert [s][1..] == [];
  }

  /** On a field that can be set nothing panics, and a string or integer
      field ends with the conversion of the last text: the last source
      present wins. */
  lemma {:induction false} ApplyAllLastWins(setter: Setter, kind: Kind, a: Applied, texts: seq<string>)
    requires !a.panicked && texts != []
    ensures !ApplyAll(setter, true, kind, a, texts).panicked
    ensures ApplyAll(setter, true, kind, a, texts) ==
      var c := SetField(setter, kind, ApplyAll(setter, true, kind, a, texts[..|texts| - 1]).value, texts[|texts| - 1]);
      Applied(c.value, c.text, c.ok, false)
  {
    var init := texts[..|texts| - 1];
    assert texts == init + [texts[|texts| - 1]];
    ApplyAllSnoc(setter, true, kind, a, init, texts[|texts| - 1]);
    ApplyAllSettable(setter, kind, a, init);
  }

  /** The kinds whose conversion ignores the field's earlier value. */
  predicate IsScalarKind(k: Kind) {
    k == StringKind || IsIntKind(k) || IsUintKind(k)
  }

  /** `if val, ok := m[k]; ok { value, status = setField(field, val) }` */
  method SetIfPresent(setter: Setter, settable: bool, kind: Kind, a: Applied, m: map<string, string>, k: string)
    returns (a': Applied)
    ensures a' == ApplyAll(setter, settable, kind, a, Present(m, k))
    ensures k !in m ==> a' == a
  {
    a' := a;
    if k in m {
      a' := SetOnce(setter, settable, kind, a, m[k]);
    }
    ApplyAllPresent(setter, settable, kind, a, m, k);
  }

  /** On a settable string or integer field the texts before the last one
      leave no trace: the field, the text and the status are those of
      converting the last text alone; no text leaves everything as it was. */
  lemma ApplyAllScalarLast(setter: Setter, kind: Kind, a: Applied, texts: seq<string>)
    requires !a.panicked && IsScalarKind(kind)
    ensures texts == [] ==> ApplyAll(setter, true, kind, a, texts) == a
    ensures texts != [] ==>
      var s := texts[|texts| - 1];
      ApplyAll(setter, true, kind, a, texts) == Applied(SetField(setter, kind, a.value, s).value, s, s != "", false)
  {
    if texts != [] {
      var s := texts[|texts| - 1];
      ApplyAllLastWins(setter, kind, a, texts);
      var p := ApplyAll(setter, true, kind, a, texts[..|texts| - 1]).value;
      SetFieldStatus(setter, kind, p, s);
      SetFieldStatus(setter, kind, a.value, s);
    }
  }

  lemma {:induction false} ApplyAllSettable(setter: Setter, kind: Kind, a: Applied, texts: seq<string>)
    requires !a.panicked
    ensures !ApplyAll(setter, true, kind, a, texts).panicked
    decreases |texts|
  {
    if texts != [] {
      ApplyAllSettable(setter, kind, SetOnce(setter, true, kind, a, texts[0]), texts[1..]);
    }
  }

  /** On a field that cannot be set, the run panics exactly when some
      text reaches a Set; otherwise nothing changes. */
  lemma {:induction false} ApplyAllUnsettable(setter: Setter, kind: Kind, a: Applied, texts: seq<string>)
    requires !a.panicked
    ensures ApplyAll(setter, false, kind, a, texts).panicked <==>
      exists i :: 0 <= i < |texts| && Writes(setter, kind, texts[i])
    ensures !ApplyAll(setter, false, kind, a, texts).panicked ==> ApplyAll(setter, false, kind, a, texts).value == a.value
    decreases |texts|
  {
    if texts != [] {
      var a' := SetOnce(setter, false, kind, a, texts[0]);
      if a'.panicked {
        PanicSticks(setter, false, kind, a', texts[1..]);
      } else {
        ApplyAllUnsettable(setter, kind, a', texts[1..]);
        assert forall i :: 1 <= i < |texts| ==> texts[i] == texts[1..][i - 1];
      }
    }
  }

  lemma {:induction false} PanicSticks(setter: Setter, settable: bool, kind: Kind, a: Applied, texts: seq<string>)
    requires a.panicked
    ensures ApplyAll(setter, settable, kind, a, texts) == a
    decreases |texts|
  {
    if texts != [] {
      PanicSticks(setter, settable, kind, a, texts[1..]);
    }
  }

  /** The last of `texts` that init.go's bool rules recognise. */
  function LastBoolWord(texts: seq<string>): Option<bool>
    decreases |texts|
  {
    if texts == [] then None
    else
      var w := StrictBoolWord(texts[|texts| - 1]);
      if w.Some? then w else LastBoolWord(texts[..|texts| - 1])
  }

  /** Under init.go's rules a settable bool field ends with the last
      recognised word among the texts, or keeps its value when there is
      none; the status is that of the last text alone. */
  lemma {:induction false} StrictBoolLastWordWins(a: Applied, texts: seq<string>)
    requires !a.panicked
    ensures ApplyAll(Strict, true, BoolKind, a, texts).value ==
      match LastBoolWord(texts)
      case Some(b) => BoolVal(b)
      case None => a.value
    decreases |texts|
  {
    if texts != [] {
      var init := texts[..|texts| - 1];
      assert texts == init + [texts[|texts| - 1]];
      ApplyAllSnoc(Strict, true, BoolKind, a, init, texts[|texts| - 1]);
      ApplyAllSettable(Strict, BoolKind, a, init);
      StrictBoolLastWordWins(a, init);
    }
  }
}
