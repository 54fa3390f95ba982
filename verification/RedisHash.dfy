/**
  Records kept as Redis hashes: every field becomes a text under its name, and
  is read back by the kind of the field it goes to.
*/
module RedisHash {
  import opened Common

  // ---- numbers and booleans as text ----

  predicate IsDigit(c: char) {
    '0' <= c <= '9'
  }

  function Digit(d: nat): char
    requires d < 10
  {
    '0' + d as char
  }

  function Digits(n: nat): (r: string)
    ensures r != "" && forall c :: c in r ==> IsDigit(c)
  {
    if n < 10 then [Digit(n)] else Digits(n / 10) + [Digit(n % 10)]
  }

  /** The number a run of digits stands for. */
  function Number(s: string): nat
    requires forall c :: c in s ==> IsDigit(c)
  {
    if s == "" then 0
    else
      assert s[|s| - 1] in s && IsDigit(s[|s| - 1]);
      10 * Number(s[..|s| - 1]) + (s[|s| - 1] as int - '0' as int)
  }

  const MIN64 := -0x8000_0000_0000_0000
  const MAX64 := 0x7fff_ffff_ffff_ffff

  function FormatInt(n: int): string {
    if n < 0 then "-" + Digits(-n) else Digits(n)
  }

  /** strconv.ParseInt in base 10 with 64 bits. */
  function ParseInt(s: string): Option<int> {
    if s == "" then None
    else
      var body := if s[0] == '-' || s[0] == '+' then s[1..] else s;
      if body == "" || exists c :: c in body && !IsDigit(c) then None
      else
        var n := (if s[0] == '-' then -1 else 1) * Number(body);
        if MIN64 <= n <= MAX64 then Some(n) else None
  }

  function FormatBool(b: bool): string {
    if b then "true" else "false"
  }

  function ParseBool(s: string): Option<bool> {
    if s == "1" || s == "t" || s == "T" || s == "true" || s == "TRUE" || s == "True" then Some(true)
    else if s == "0" || s == "f" || s == "F" || s == "false" || s == "FALSE" || s == "False" then Some(false)
    else None
  }

  lemma {:induction false} NumberOfDigits(n: nat)
    ensures Number(Digits(n)) == n
  {
    var s := Digits(n);
    if n < 10 {
      assert s[..0] == "";
    } else {
      NumberOfDigits(n / 10);
      assert s[..|s| - 1] == Digits(n / 10);
    }
  }

  lemma ParseFormatInt(n: int)
    requires MIN64 <= n <= MAX64
    ensures ParseInt(FormatInt(n)) == Some(n) && FormatInt(n) != "" && (FormatInt(n)[0] == '-' <==> n < 0)
  {
    var d := Digits(if n < 0 then -n else n);
    NumberOfDigits(if n < 0 then -n else n);
    hide Digits, Number;
    assert d[0] in d;
    if n < 0 { assert ("-" + d)[1..] == d; }
  }

  lemma ParseFormatBool(b: bool)
    ensures ParseBool(FormatBool(b)) == Some(b) && FormatBool(b) != ""
  {
  }

  // ---- records ----

  /** What a field holds. `NestedKind` is any struct, `OtherKind` everything else the decoder does not know. */
  datatype Base = StringKind | IntKind | BoolKind | NestedKind | OtherKind

  datatype Kind = Plain(base: Base) | Pointer(base: Base) | DeletedAt

  datatype Field = Field(name: string, kind: Kind)

  /** A value; of a nested or unknown one only the printed form is kept, and "" stands for its zero value. */
  datatype Scalar = Text(s: string) | Number64(n: int) | Flag(b: bool) | Nested(printed: string) | Other(printed: string)

  datatype Value = Val(v: Scalar) | Ptr(p: Option<Scalar>) | Deleted(at: Option<string>)

  predicate IsBase(v: Scalar, base: Base) {
    match base
    case StringKind => v.Text?
    case IntKind => v.Number64? && MIN64 <= v.n <= MAX64
    case BoolKind => v.Flag?
    case NestedKind => v.Nested?
    case OtherKind => v.Other?
  }

  predicate IsKind(v: Value, kind: Kind) {
    match kind
    case Plain(base) => v.Val? && IsBase(v.v, base)
    case Pointer(base) => v.Ptr? && (v.p.Some? ==> IsBase(v.p.value, base))
    case DeletedAt => v.Deleted?
  }

  predicate IsRecord(schema: seq<Field>, record: seq<Value>) {
    && |record| == |schema|
    && (forall i, j :: 0 <= i < j < |schema| ==> schema[i].name != schema[j].name)
    && (forall i :: 0 <= i < |schema| ==> IsKind(record[i], schema[i].kind))
  }

  function ZeroScalar(base: Base): Scalar {
    match base
    case StringKind => Text("") case IntKind => Number64(0) case BoolKind => Flag(false)
    case NestedKind => Nested("") case OtherKind => Other("")
  }

  function Zero(kind: Kind): Value {
    match kind case Plain(base) => Val(ZeroScalar(base)) case Pointer(_) => Ptr(None) case DeletedAt => Deleted(None)
  }

  // ---- encoding ----

  function Printed(v: Scalar): string {
    match v
    case Text(s) => s case Number64(n) => FormatInt(n) case Flag(b) => FormatBool(b)
    case Nested(t) => t case Other(t) => t
  }

  function Encoded(v: Value): string
    requires !v.Deleted?
  {
    match v case Val(x) => Printed(x) case Ptr(p) => if p.None? then "" else Printed(p.value)
  }

  /** The hash of a record: one text for every field but the deletion date. */
  ghost predicate IsHashOf(hash: map<string, string>, schema: seq<Field>, record: seq<Value>, n: nat)
    requires IsRecord(schema, record) && n <= |schema|
  {
    && (forall i :: 0 <= i < n && !schema[i].kind.DeletedAt? ==> schema[i].name in hash && hash[schema[i].name] == Encoded(record[i]))
    && (forall name :: name in hash ==> exists i :: 0 <= i < n && !schema[i].kind.DeletedAt? && schema[i].name == name)
  }

  /** The field loop of RedisHSetObj. */
  method Encode(schema: seq<Field>, record: seq<Value>) returns (hash: map<string, string>)
    requires IsRecord(schema, record)
    ensures IsHashOf(hash, schema, record, |schema|)
  {
    hash := map[];
    for i := 0 to |schema|
      invariant IsHashOf(hash, schema, record, i)
    {
      var field, value := schema[i], record[i];
      if field.kind.DeletedAt? { continue; }
      if value.Ptr? {
        if value.p.None? {
          hash := hash[field.name := ""];
          continue;
        }
        hash := hash[field.name := Printed(value.p.value)];
      } else {
        hash := hash[field.name := Printed(value.v)];
      }
    }
  }

  // ---- decoding ----

  function DecodeScalar(base: Base, text: string, current: Scalar): Option<Scalar> {
    match base
    case StringKind => Some(Text(text))
    case IntKind => var n := ParseInt(text); if n.Some? then Some(Number64(n.value)) else None
    case BoolKind => var b := ParseBool(text); if b.Some? then Some(Flag(b.value)) else None
    case NestedKind => Some(current)
    case OtherKind => None
  }

  /** One field: an empty text leaves a pointer and a deletion date alone. `dates` are the texts read as dates. */
  function DecodeValue(kind: Kind, text: string, current: Value, dates: set<string>): Option<Value>
    requires IsKind(current, kind)
  {
    match kind
    case DeletedAt => if text == "" then Some(current) else if text in dates then Some(Deleted(Some(text))) else None
    case Plain(base) => var v := DecodeScalar(base, text, current.v); if v.Some? then Some(Val(v.value)) else None
    case Pointer(base) =>
      if text == "" then Some(current)
      else
        var v := DecodeScalar(base, text, if current.p.Some? then current.p.value else ZeroScalar(base));
        if v.Some? then Some(Ptr(v)) else None
  }

  /** What an unreadable field is left as: a nil pointer has been set to a fresh zero value before its text is parsed. */
  function Touched(kind: Kind, current: Value): Value {
    if kind.Pointer? && current == Ptr(None) then Ptr(Some(ZeroScalar(kind.base))) else current
  }

  function Wanted(hash: map<string, string>, field: Field, current: Value, dates: set<string>): Option<Value>
    requires IsKind(current, field.kind)
  {
    if field.name in hash then DecodeValue(field.kind, hash[field.name], current, dates) else Some(current)
  }

  ghost predicate AllDecode(schema: seq<Field>, hash: map<string, string>, dates: set<string>, current: seq<Value>)
    requires IsRecord(schema, current)
  {
    forall i :: 0 <= i < |schema| ==> Wanted(hash, schema[i], current[i], dates).Some?
  }

  ghost predicate DecodedTo(schema: seq<Field>, hash: map<string, string>, dates: set<string>, current: seq<Value>, back: seq<Value>)
    requires IsRecord(schema, current)
  {
    |back| == |schema| && forall i :: 0 <= i < |schema| ==> Some(back[i]) == Wanted(hash, schema[i], current[i], dates)
  }

  /** The field loop of RedisHGetObj: sets fields in order and stops at the first that cannot be read. */
  method Decode(schema: seq<Field>, hash: map<string, string>, dates: set<string>, target: array<Value>)
    returns (ok: bool, read: nat)
    requires IsRecord(schema, target[..])
    modifies target
    ensures read <= |schema| && DecodedTo(schema[..read], hash, dates, old(target[..read]), target[..read])
    ensures hash == map[] ==> read == 0 && target[..] == old(target[..])
    ensures !ok && hash != map[] ==>
              && read < |schema| && Wanted(hash, schema[read], old(target[read]), dates).None?
              && target[read + 1..] == old(target[read + 1..])
    ensures !ok && hash != map[] && (schema[read].kind.Pointer? ==> old(target[read]) != Ptr(None)) ==>
              target[read] == old(target[read])
    ensures !ok && hash != map[] && schema[read].kind.Pointer? && old(target[read]) == Ptr(None) ==>
              && (schema[read].kind.base.IntKind? ==> target[read] == Ptr(Some(Number64(0))))
              && (schema[read].kind.base.BoolKind? ==> target[read] == Ptr(Some(Flag(false))))
              && (!schema[read].kind.base.IntKind? && !schema[read].kind.base.BoolKind? ==> target[read] == Ptr(Some(Other(""))))
    ensures ok <==> hash != map[] && AllDecode(schema, hash, dates, old(target[..]))
    ensures ok ==> DecodedTo(schema, hash, dates, old(target[..]), target[..])
  {
    read := 0;
    if hash == map[] { return false, 0; }
    ghost var was := target[..];
    for i := 0 to |schema|
      invariant forall j :: 0 <= j < i ==> Some(target[j]) == Wanted(hash, schema[j], was[j], dates)
      invariant forall j :: i <= j < |schema| ==> target[j] == was[j]
    {
      hide DecodeValue;
      assert IsKind(was[i], schema[i].kind);
      if schema[i].name in hash {
        var value := DecodeValue(schema[i].kind, hash[schema[i].name], target[i], dates);
        if value.None? {
          assert Wanted(hash, schema[i], was[i], dates).None?;
          target[i] := Touched(schema[i].kind, target[i]);
          return false, i;
        }
        target[i] := value.value;
      }
    }
    ok, read := true, |schema|;
  }

  // ---- round trip ----

  /** Can the decoder read what the encoder writes for this value? */
  predicate Readable(kind: Kind, v: Value)
    requires IsKind(v, kind)
  {
    match kind
    case Plain(base) => !base.OtherKind?
    case Pointer(base) => !base.OtherKind? || v.p.None? || v.p.value.printed == ""
    case DeletedAt => true
  }

  /** What comes back from a value: dates and the contents of nested structs are lost, and a pointer to nothing printed is nil. */
  function Kept(kind: Kind, v: Value): Value
    requires IsKind(v, kind)
  {
    match kind
    case DeletedAt => Deleted(None)
    case Plain(base) => if base.NestedKind? then Zero(kind) else v
    case Pointer(base) =>
      if v.p.None? || Printed(v.p.value) == "" then Ptr(None)
      else if base.NestedKind? then Ptr(Some(ZeroScalar(base)))
      else v
  }

  /** Does the value survive? */
  predicate Survives(kind: Kind, v: Value)
    requires IsKind(v, kind)
  {
    match kind
    case DeletedAt => v.at.None?
    case Plain(base) => base.NestedKind? ==> v.v.printed == ""
    case Pointer(base) =>
      match base
      case StringKind => v.p != Some(Text(""))
      case NestedKind => v.p.None?
      case OtherKind => v.p.Some? ==> v.p.value.printed != ""
      case _ => true
  }

  lemma PrintedIsReadBack(base: Base, v: Scalar, current: Scalar)
    requires IsBase(v, base)
    ensures var r := DecodeScalar(base, Printed(v), current);
            match base case NestedKind => r == Some(current) case OtherKind => r.None? case _ => r == Some(v)
    ensures (base.IntKind? || base.BoolKind?) ==> Printed(v) != ""
  {
    hide ParseInt, FormatInt, ParseBool, FormatBool;
    match v {
      case Number64(n) => ParseFormatInt(n);
      case Flag(b) => ParseFormatBool(b);
      case _ =>
    }
  }

  lemma ValueRoundTrip(kind: Kind, v: Value, dates: set<string>)
    requires IsKind(v, kind) && !kind.DeletedAt?
    ensures DecodeValue(kind, Encoded(v), Zero(kind), dates) == if Readable(kind, v) then Some(Kept(kind, v)) else None
  {
    hide Printed, DecodeScalar;
    match kind {
      case Plain(base) =>
        PrintedIsReadBack(base, v.v, ZeroScalar(base));
      case Pointer(base) =>
        if v.p.Some? {
          PrintedIsReadBack(base, v.p.value, ZeroScalar(base));
          OtherPrints(v.p.value);
        }
    }
  }

  lemma OtherPrints(v: Scalar)
    ensures v.Other? || v.Nested? ==> Printed(v) == v.printed
    ensures v.Text? ==> Printed(v) == v.s
  {
  }

  lemma KeptIffSurvives(kind: Kind, v: Value)
    requires IsKind(v, kind) && Readable(kind, v)
    ensures Kept(kind, v) == v <==> Survives(kind, v)
  {
    hide FormatInt, FormatBool;
    if kind.Pointer? && v.p.Some? { PrintedIsReadBack(kind.base, v.p.value, v.p.value); }
  }

  /**
    Writing any record and reading its hash into a zero record: this succeeds
    exactly when something is written and every field is of a kind the decoder
    knows, and gives back exactly the record when no field is one of those that
    do not survive.
  */
  lemma RoundTrip(schema: seq<Field>, record: seq<Value>, hash: map<string, string>, dates: set<string>, i: nat)
    requires IsRecord(schema, record) && IsHashOf(hash, schema, record, |schema|) && i < |schema|
    ensures var field := schema[i];
            var back := Wanted(hash, field, Zero(field.kind), dates);
            && (back.Some? <==> Readable(field.kind, record[i]))
            && (back.Some? ==> back == Some(Kept(field.kind, record[i])))
            && (back == Some(record[i]) <==> Readable(field.kind, record[i]) && Survives(field.kind, record[i]))
  {
    hide DecodeValue, Encoded, Survives;
    var field := schema[i];
    var kind := field.kind;
    assert IsKind(record[i], kind);
    if !kind.DeletedAt? {
      ValueRoundTrip(kind, record[i], dates);
    }
    hide Kept, IsHashOf;
    if Readable(kind, record[i]) { KeptIffSurvives(kind, record[i]); }
  }

  /**
    Loading over a record that is already filled does not reset it: a pointer
    whose text is empty keeps what it pointed to, a deletion date stays, and a
    field the hash does not have is left as it is.
  */
  lemma LoadingDoesNotReset(hash: map<string, string>, field: Field, current: Value, dates: set<string>)
    requires IsKind(current, field.kind)
    requires field.name !in hash || (hash[field.name] == "" && !field.kind.Plain?)
    ensures Wanted(hash, field, current, dates) == Some(current)
  {
  }

  /** A text under a deletion date is taken as one exactly if it is a date. */
  lemma DatesAreLoaded(hash: map<string, string>, field: Field, current: Value, dates: set<string>)
    requires IsKind(current, field.kind) && field.kind.DeletedAt? && field.name in hash && hash[field.name] != ""
    ensures Wanted(hash, field, current, dates) == if hash[field.name] in dates then Some(Deleted(Some(hash[field.name]))) else None
  {
  }

  /** The six spellings of each truth value, and nothing else. */
  lemma ParseBoolReads(s: string)
    ensures ParseBool(s) == Some(true) <==> s in ["1", "t", "T", "TRUE", "true", "True"]
    ensures ParseBool(s) == Some(false) <==> s in ["0", "f", "F", "FALSE", "false", "False"]
    ensures ParseBool(s).None? <==> s !in ["1", "t", "T", "TRUE", "true", "True", "0", "f", "F", "FALSE", "false", "False"]
  {
  }

  /** A whole number is read with or without a sign and with any number of leading zeros, and only if it fits 64 bits. */
  lemma ParseIntReads(sign: string, digits: string)
    requires sign == "" || sign == "+" || sign == "-"
    requires digits != "" && forall c :: c in digits ==> IsDigit(c)
    ensures var n := if sign == "-" then -1 * Number(digits) else Number(digits) as int;
            ParseInt(sign + digits) == if -0x8000_0000_0000_0000 <= n <= 0x7fff_ffff_ffff_ffff then Some(n) else None
  {
    assert digits[0] in digits;
    hide Number;
    if sign == "" { assert sign + digits == digits; } else { assert (sign + digits)[1..] == digits && (sign + digits)[0] == sign[0]; }
  }

  lemma HashIsEmptyIff(schema: seq<Field>, record: seq<Value>, hash: map<string, string>)
    requires IsRecord(schema, record) && IsHashOf(hash, schema, record, |schema|)
    ensures hash == map[] <==> forall i :: 0 <= i < |schema| ==> schema[i].kind.DeletedAt?
  {
    if hash != map[] {
      var name :| name in hash;
    }
  }

  ghost predicate AllReadable(schema: seq<Field>, record: seq<Value>)
    requires IsRecord(schema, record)
  {
    forall i :: 0 <= i < |schema| ==> Readable(schema[i].kind, record[i])
  }

  ghost predicate AllSurvive(schema: seq<Field>, record: seq<Value>)
    requires IsRecord(schema, record)
  {
    forall i :: 0 <= i < |schema| ==> Survives(schema[i].kind, record[i])
  }

  ghost function Zeros(schema: seq<Field>): seq<Value> {
    seq(|schema|, i requires 0 <= i < |schema| => Zero(schema[i].kind))
  }

  lemma ZerosAreARecord(schema: seq<Field>, record: seq<Value>)
    requires IsRecord(schema, record)
    ensures IsRecord(schema, Zeros(schema))
  {
  }

  lemma DecodesIffReadable(schema: seq<Field>, record: seq<Value>, hash: map<string, string>, dates: set<string>)
    requires IsRecord(schema, record) && IsHashOf(hash, schema, record, |schema|) && IsRecord(schema, Zeros(schema))
    ensures AllDecode(schema, hash, dates, Zeros(schema)) <==> AllReadable(schema, record)
  {
    var zeros := Zeros(schema);
    assert |zeros| == |schema|;
    forall i | 0 <= i < |schema|
      ensures Wanted(hash, schema[i], zeros[i], dates).Some? <==> Readable(schema[i].kind, record[i])
    {
      RoundTrip(schema, record, hash, dates, i);
    }
    hide Wanted, Readable, IsHashOf, IsRecord, Zeros;
  }

  lemma DecodesToKept(schema: seq<Field>, record: seq<Value>, hash: map<string, string>, dates: set<string>, back: seq<Value>)
    requires IsRecord(schema, record) && IsHashOf(hash, schema, record, |schema|) && IsRecord(schema, Zeros(schema))
    requires DecodedTo(schema, hash, dates, Zeros(schema), back)
    ensures |back| == |schema| && forall i :: 0 <= i < |schema| ==> back[i] == Kept(schema[i].kind, record[i])
    ensures back == record <==> AllSurvive(schema, record)
  {
    forall i | 0 <= i < |schema|
      ensures back[i] == Kept(schema[i].kind, record[i])
      ensures back[i] == record[i] <==> Survives(schema[i].kind, record[i])
    {
      assert Zeros(schema)[i] == Zero(schema[i].kind);
      RoundTrip(schema, record, hash, dates, i);
    }
    hide Wanted, Kept, Survives, IsHashOf, IsRecord;
    if forall i :: 0 <= i < |schema| ==> back[i] == record[i] { assert back == record; }
  }

  /** The two loops in a row, through a zero record. */
  method SaveAndLoad(schema: seq<Field>, record: seq<Value>, dates: set<string>) returns (ok: bool, back: seq<Value>)
    requires IsRecord(schema, record)
    ensures ok <==> (exists i :: 0 <= i < |schema| && !schema[i].kind.DeletedAt?) && AllReadable(schema, record)
    ensures ok ==> |back| == |schema| && forall i :: 0 <= i < |schema| ==> back[i] == Kept(schema[i].kind, record[i])
    ensures ok ==> (back == record <==> AllSurvive(schema, record))
  {
    hide AllReadable, AllSurvive, Kept, Wanted, IsHashOf, IsKind, Zero, AllDecode, DecodedTo;
    var hash := Encode(schema, record);
    HashIsEmptyIff(schema, record, hash);
    ZerosAreARecord(schema, record);
    DecodesIffReadable(schema, record, hash, dates);
    var target := new Value[|schema|](i requires 0 <= i < |schema| => Zero(schema[i].kind));
    assert target[..] == Zeros(schema);
    hide IsRecord, Zeros;
    var read;
    ok, read := Decode(schema, hash, dates, target);
    back := target[..];
    if ok { DecodesToKept(schema, record, hash, dates, back); }
  }
}
