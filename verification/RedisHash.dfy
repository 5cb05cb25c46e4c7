/** Structs kept as Redis hashes: one text per field, written and read back by reflection. */
module RedisHash {
  import opened Basics

  datatype Kind = StringKind | IntKind | BoolKind

  datatype FieldType = Plain(kind: Kind) | Pointer(kind: Kind) | DeletedAt

  datatype Value = Str(s: string) | Int(i: int) | Bool(b: bool)

  /** The content of a field; `Deleted` is a gorm.DeletedAt with the time as RFC 3339 text, if it is valid. */
  datatype Field = Direct(v: Value) | Ref(target: Option<Value>) | Deleted(time: Option<string>)

  datatype FieldDecl = FieldDecl(name: string, typ: FieldType)

  type Hash = map<string, string>

  const MIN_INT64 := -0x8000_0000_0000_0000
  const MAX_INT64 := 0x7FFF_FFFF_FFFF_FFFF

  // ---------------------------------------------------------------- texts

  function Digit(d: nat): char
    requires d < 10
  {
    ('0' as int + d) as char
  }

  function FormatNat(n: nat): string {
    if n < 10 then [Digit(n)] else FormatNat(n / 10) + [Digit(n % 10)]
  }

  /** strconv.FormatInt in base 10, as "%v" prints an integer. */
  function FormatInt(i: int): string {
    if i < 0 then "-" + FormatNat(-i) else FormatNat(i)
  }

  function ParseNat(s: string): Option<nat> {
    if s == "" || !('0' <= s[|s| - 1] <= '9') then None else
    var d := s[|s| - 1] as int - '0' as int;
    if |s| == 1 then Some(d) else
    var n := ParseNat(s[..|s| - 1]);
    if n.None? then None else Some(10 * n.value + d)
  }

  /** strconv.ParseInt in base 10 for 64 bits: a sign is optional, and a number out of range is an error. */
  function ParseInt(s: string): Option<int> {
    var negative := s != "" && s[0] == '-';
    var n := ParseNat(if s != "" && (s[0] == '-' || s[0] == '+') then s[1..] else s);
    if n.None? then None else
    var u: int := n.value;
    var i := if negative then -u else u;
    if MIN_INT64 <= i <= MAX_INT64 then Some(i) else None
  }

  function FormatBool(b: bool): string {
    if b then "true" else "false"
  }

  /** strconv.ParseBool */
  function ParseBool(s: string): Option<bool> {
    if s in ["1", "t", "T", "TRUE", "true", "True"] then Some(true)
    else if s in ["0", "f", "F", "FALSE", "false", "False"] then Some(false)
    else None
  }

  lemma {:induction false} NatRoundTrip(n: nat)
    ensures FormatNat(n) != "" && '0' <= FormatNat(n)[0] <= '9' && ParseNat(FormatNat(n)) == Some(n)
  {
    if n >= 10 {
      NatRoundTrip(n / 10);
      assert FormatNat(n)[..|FormatNat(n)| - 1] == FormatNat(n / 10);
    }
  }

  lemma IntRoundTrip(i: int)
    requires MIN_INT64 <= i <= MAX_INT64
    ensures FormatInt(i) != "" && ParseInt(FormatInt(i)) == Some(i)
  {
    NatRoundTrip(if i < 0 then -i else i);
    if i < 0 { assert ("-" + FormatNat(-i))[1..] == FormatNat(-i); }
  }

  /** The digits of a number in base ten, the last one for the units; none in front but for zero itself. */
  lemma DecimalIs(n: nat, d: nat)
    requires d < 10
    ensures n > 0 ==> FormatInt(10 * n + d) == FormatInt(n) + ["0123456789"[d]]
    ensures FormatInt(d) == ["0123456789"[d]]
    ensures n > 0 ==> FormatInt(0 - n) == "-" + FormatInt(n)
  {
  }

  lemma {:induction false} ParseNatIs(s: string)
    ensures ParseNat(s).Some? <==> s != "" && forall i | 0 <= i < |s| :: '0' <= s[i] <= '9'
  {
    if |s| > 1 { ParseNatIs(s[..|s| - 1]); }
  }

  /** Exactly the texts of digits with at most one sign in front are read, if their number has 64 bits. */
  lemma ParseIntIs(s: string, digits: string, negative: bool)
    requires s == digits || (s == "+" + digits && !negative) || (s == "-" + digits && negative)
    requires s == digits ==> !negative && (digits != "" ==> digits[0] != '-' && digits[0] != '+')
    ensures !(digits != "" && forall i | 0 <= i < |digits| :: '0' <= digits[i] <= '9') ==> ParseInt(s).None?
    ensures digits != "" && (forall i | 0 <= i < |digits| :: '0' <= digits[i] <= '9') ==>
      && ParseNat(digits).Some?
      && var u: int := ParseNat(digits).value; var i := if negative then -u else u;
         ParseInt(s) == if -0x8000_0000_0000_0000 <= i <= 0x7FFF_FFFF_FFFF_FFFF then Some(i) else None
  {
    ParseNatIs(digits);
    if s != digits { assert s[1..] == digits; }
  }

  /** Twelve texts are read as a truth value. */
  lemma ParseBoolIs(s: string)
    ensures ParseBool(s) == Some(true) <==>
      s == "1" || s == "t" || s == "T" || s == "true" || s == "True" || s == "TRUE"
    ensures ParseBool(s) == Some(false) <==>
      s == "0" || s == "f" || s == "F" || s == "false" || s == "False" || s == "FALSE"
  {
    if s in ["0", "f", "F", "FALSE", "false", "False"] {
      assert s[0] in ['0', 'f', 'F'];
      assert forall t | t in ["1", "t", "T", "TRUE", "true", "True"] :: t[0] in ['1', 't', 'T'];
    }
  }

  lemma BoolRoundTrip(b: bool)
    ensures FormatBool(b) != "" && ParseBool(FormatBool(b)) == Some(b)
  {
    assert "false" !in ["1", "t", "T", "TRUE", "true", "True"];
  }

  // ---------------------------------------------------------------- fields

  predicate HasKind(v: Value, kind: Kind) {
    match kind
    case StringKind => v.Str?
    case IntKind => v.Int? && MIN_INT64 <= v.i <= MAX_INT64
    case BoolKind => v.Bool?
  }

  predicate HasType(f: Field, typ: FieldType) {
    match typ
    case Plain(kind) => f.Direct? && HasKind(f.v, kind)
    case Pointer(kind) => f.Ref? && (f.target.Some? ==> HasKind(f.target.value, kind))
    case DeletedAt => f.Deleted?
  }

  function ZeroValue(kind: Kind): Value {
    match kind case StringKind => Str("") case IntKind => Int(0) case BoolKind => Bool(false)
  }

  function ZeroField(typ: FieldType): Field {
    match typ case Plain(kind) => Direct(ZeroValue(kind)) case Pointer(_) => Ref(None) case DeletedAt => Deleted(None)
  }

  function EncodeValue(v: Value): string {
    match v case Str(s) => s case Int(i) => FormatInt(i) case Bool(b) => FormatBool(b)
  }

  /** The text of a field, unless it is not stored. */
  function EncodeField(f: Field): Option<string> {
    match f
    case Direct(v) => Some(EncodeValue(v))
    case Ref(target) => Some(if target.None? then "" else EncodeValue(target.value))
    case Deleted(_) => None
  }

  function DecodeValue(kind: Kind, text: string): Option<Value> {
    match kind
    case StringKind => Some(Str(text))
    case IntKind => var i := ParseInt(text); if i.None? then None else Some(Int(i.value))
    case BoolKind => var b := ParseBool(text); if b.None? then None else Some(Bool(b.value))
  }

  /** What a field becomes, or None for an error; a missing text leaves it alone.  `validTime` is time.Parse. */
  function DecodeField(typ: FieldType, current: Field, text: Option<string>, validTime: string -> bool): Option<Field> {
    if text.None? then Some(current) else
    match typ
    case Plain(kind) => var v := DecodeValue(kind, text.value); if v.None? then None else Some(Direct(v.value))
    case Pointer(kind) =>
      if text.value == "" then Some(current) else
      var v := DecodeValue(kind, text.value); if v.None? then None else Some(Ref(v))
    case DeletedAt =>
      if text.value == "" then Some(current) else if validTime(text.value) then Some(Deleted(text)) else None
  }

  /** What is stored: texts as they are, numbers in base ten, true and false by name, a nil pointer as the empty text;
      a time of deletion is not stored. */
  lemma StoredTexts(f: Field)
    ensures match f
      case Direct(Str(s)) => EncodeField(f) == Some(s)
      case Direct(Int(i)) => EncodeField(f) == Some(FormatInt(i))
      case Direct(Bool(b)) => EncodeField(f) == Some(if b then "true" else "false")
      case Ref(None) => EncodeField(f) == Some("")
      case Ref(Some(v)) => EncodeField(f) == EncodeField(Direct(v))
      case Deleted(_) => EncodeField(f) == None
  {
  }

  /** What is read: a field without a stored text stays as it is, and so do a pointer and a time of deletion for the
      empty one. */
  lemma ReadFields(typ: FieldType, current: Field, text: Option<string>, validTime: string -> bool)
    ensures text.None? || (text.value == "" && !typ.Plain?) ==>
      DecodeField(typ, current, text, validTime) == Some(current)
    ensures text.Some? && typ.Plain? ==>
      var r := DecodeField(typ, current, text, validTime);
      match typ.kind
      case StringKind => r == Some(Direct(Str(text.value)))
      case IntKind => r == (match ParseInt(text.value) case Some(i) => Some(Direct(Int(i))) case None => None)
      case BoolKind => r == (match ParseBool(text.value) case Some(b) => Some(Direct(Bool(b))) case None => None)
    ensures text.Some? && text.value != "" && typ.Pointer? ==>
      var r := DecodeField(typ, current, text, validTime);
      match DecodeField(Plain(typ.kind), current, text, validTime)
      case Some(f) => r == Some(Ref(Some(f.v)))
      case None => r == None
    ensures text.Some? && text.value != "" && typ == DeletedAt ==>
      DecodeField(typ, current, text, validTime) == if validTime(text.value) then Some(Deleted(text)) else None
  {
  }

  lemma ValueRoundTrip(v: Value, kind: Kind)
    requires HasKind(v, kind)
    ensures DecodeValue(kind, EncodeValue(v)) == Some(v)
    ensures EncodeValue(v) == "" <==> v == Str("")
  {
    match kind
    case StringKind =>
    case IntKind => IntRoundTrip(v.i);
    case BoolKind => BoolRoundTrip(v.b);
  }

  /** A field that comes back as it was. */
  predicate Lossless(f: Field) {
    match f
    case Direct(_) => true
    case Ref(target) => target != Some(Str(""))
    case Deleted(time) => time.None?
  }

  lemma FieldRoundTrip(f: Field, typ: FieldType, validTime: string -> bool)
    requires HasType(f, typ)
    ensures DecodeField(typ, ZeroField(typ), EncodeField(f), validTime) ==
      Some(if Lossless(f) then f else ZeroField(typ))
  {
    match f
    case Direct(v) => ValueRoundTrip(v, typ.kind);
    case Ref(target) => if target.Some? { ValueRoundTrip(target.value, typ.kind); }
    case Deleted(_) =>
  }

  // ---------------------------------------------------------------- structs

  ghost predicate ValidSchema(schema: seq<FieldDecl>) {
    forall i, j | 0 <= i < j < |schema| :: schema[i].name != schema[j].name
  }

  ghost predicate HasTypes(fields: seq<Field>, schema: seq<FieldDecl>) {
    |fields| == |schema| && forall i | 0 <= i < |schema| :: HasType(fields[i], schema[i].typ)
  }

  /** The text the hash holds for every field. */
  ghost predicate Encoded(hash: Hash, fields: seq<Field>, schema: seq<FieldDecl>)
    requires |fields| == |schema|
  {
    && (forall i | 0 <= i < |schema| :: TextOf(hash, schema[i].name) == EncodeField(fields[i]))
    && (forall name | name in hash :: exists i :: 0 <= i < |schema| && schema[i].name == name)
  }

  function TextOf(hash: Hash, name: string): Option<string> {
    if name in hash then Some(hash[name]) else None
  }

  /** RedisHSetObj, up to the write: reads the fields of the object in place. */
  method EncodeObject(obj: array<Field>, schema: seq<FieldDecl>) returns (data: Hash)
    requires ValidSchema(schema) && HasTypes(obj[..], schema)
    ensures Encoded(data, obj[..], schema)
  {
    data := map[];
    for i := 0 to |schema|
      invariant forall k | 0 <= k < i :: TextOf(data, schema[k].name) == EncodeField(obj[k])
      invariant forall name | name in data :: exists k :: 0 <= k < i && schema[k].name == name
    {
      assert HasType(obj[..][i], schema[i].typ);
      var name := schema[i].name;
      if schema[i].typ == DeletedAt { continue; }
      var value;
      if schema[i].typ.Pointer? {
        if obj[i].target.None? {
          data := data[name := ""];
          continue;
        }
        value := obj[i].target.value;
      } else {
        value := obj[i].v;
      }
      if value.Bool? {
        data := data[name := FormatBool(value.b)];
        continue;
      }
      data := data[name := if value.Int? then FormatInt(value.i) else value.s];
    }
  }

  datatype DecodeResult = Ok | NotFound | BadField(index: nat)

  /** The first `n` fields were read from the hash, those after the next one not touched. */
  ghost predicate Decoded(before: seq<Field>, after: seq<Field>, hash: Hash, schema: seq<FieldDecl>,
                          validTime: string -> bool, n: nat) {
    && |before| == |after| == |schema| && n <= |schema|
    && (forall i | 0 <= i < n ::
          DecodeField(schema[i].typ, before[i], TextOf(hash, schema[i].name), validTime) == Some(after[i]))
    && (forall i | n < i < |schema| :: after[i] == before[i])
  }

  /** What a field is left as when its text does not parse: a nil pointer has been made to point to a zero by then. */
  function LeftBy(typ: FieldType, before: Field): Field {
    if typ.Pointer? && before == Ref(None) then Ref(Some(ZeroValue(typ.kind))) else before
  }

  /** RedisHGetObj: sets the fields in place, up to the first text that does not parse. */
  method DecodeObject(hash: Hash, obj: array<Field>, schema: seq<FieldDecl>, validTime: string -> bool)
    returns (r: DecodeResult)
    requires HasTypes(obj[..], schema)
    modifies obj
    ensures r == NotFound <==> hash == map[]
    ensures r == NotFound ==> obj[..] == old(obj[..])
    ensures r == Ok ==> Decoded(old(obj[..]), obj[..], hash, schema, validTime, |schema|)
    ensures r.BadField? ==>
      && r.index < |schema| && Decoded(old(obj[..]), obj[..], hash, schema, validTime, r.index)
      && DecodeField(schema[r.index].typ, old(obj[r.index]), TextOf(hash, schema[r.index].name), validTime).None?
      && obj[r.index] == LeftBy(schema[r.index].typ, old(obj[r.index]))
  {
    if |hash| == 0 { return NotFound; }
    for i := 0 to |schema|
      invariant forall k | 0 <= k < i ::
        DecodeField(schema[k].typ, old(obj[k]), TextOf(hash, schema[k].name), validTime) == Some(obj[k])
      invariant forall k | i <= k < |schema| :: obj[k] == old(obj[k])
    {
      assert HasType(old(obj[..])[i], schema[i].typ);
      if schema[i].name !in hash { continue; }
      var text := hash[schema[i].name];
      match schema[i].typ {
        case DeletedAt =>
          if text != "" {
            if !validTime(text) { return BadField(i); }
            obj[i] := Deleted(Some(text));
          }
        case Pointer(kind) =>
          if text == "" { continue; }
          if obj[i].target.None? { obj[i] := Ref(Some(ZeroValue(kind))); }
          var v := DecodeValue(kind, text);
          if v.None? { return BadField(i); }
          obj[i] := Ref(v);
        case Plain(kind) =>
          var v := DecodeValue(kind, text);
          if v.None? { return BadField(i); }
          obj[i] := Direct(v.value);
      }
    }
    return Ok;
  }

  /** The fields as they come back: a pointer to the empty text and a valid DeletedAt are lost. */
  function Returned(fields: seq<Field>, schema: seq<FieldDecl>): (r: seq<Field>)
    requires |fields| == |schema|
    ensures |r| == |schema|
  {
    seq(|schema|, i requires 0 <= i < |schema| => if Lossless(fields[i]) then fields[i] else ZeroField(schema[i].typ))
  }

  /** Reading an encoded struct into a zero object never fails. */
  lemma DecodeUndoesEncode(hash: Hash, fields: seq<Field>, schema: seq<FieldDecl>, validTime: string -> bool)
    requires HasTypes(fields, schema) && Encoded(hash, fields, schema)
    ensures forall i | 0 <= i < |schema| ::
      DecodeField(schema[i].typ, ZeroField(schema[i].typ), TextOf(hash, schema[i].name), validTime) ==
        Some(Returned(fields, schema)[i])
    ensures hash == map[] <==> forall i | 0 <= i < |schema| :: schema[i].typ == DeletedAt
  {
    forall i | 0 <= i < |schema|
      ensures DecodeField(schema[i].typ, ZeroField(schema[i].typ), TextOf(hash, schema[i].name), validTime) ==
        Some(Returned(fields, schema)[i])
      ensures schema[i].typ != DeletedAt ==> schema[i].name in hash
    {
      FieldRoundTrip(fields[i], schema[i].typ, validTime);
    }
    if hash != map[] {
      var name :| name in hash;
      var i :| 0 <= i < |schema| && schema[i].name == name;
      assert EncodeField(fields[i]).Some?;
    }
  }

  /** What decoding the stored text of a field into a zero object makes of it. */
  function ReadBackField(f: Field, typ: FieldType, validTime: string -> bool): Option<Field> {
    DecodeField(typ, ZeroField(typ), EncodeField(f), validTime)
  }

  /** Decoding what was encoded gives the struct unchanged exactly when no field is lossy. */
  lemma ReturnedExactlyWhen(fields: seq<Field>, schema: seq<FieldDecl>, validTime: string -> bool)
    requires HasTypes(fields, schema)
    ensures (forall i | 0 <= i < |schema| :: ReadBackField(fields[i], schema[i].typ, validTime) == Some(fields[i])) <==>
      forall i | 0 <= i < |schema| :: Lossless(fields[i])
    ensures Returned(fields, schema) == fields <==> forall i | 0 <= i < |schema| :: Lossless(fields[i])
  {
    forall i | 0 <= i < |schema|
      ensures ReadBackField(fields[i], schema[i].typ, validTime) == Some(fields[i]) <==> Lossless(fields[i])
      ensures Returned(fields, schema)[i] == fields[i] <==> Lossless(fields[i])
    {
      if !Lossless(fields[i]) { LossyChanges(fields[i], schema[i].typ); }
      FieldRoundTrip(fields[i], schema[i].typ, validTime);
    }
    if Returned(fields, schema) != fields {
      var i :| 0 <= i < |schema| && Returned(fields, schema)[i] != fields[i];
    }
  }

  lemma LossyChanges(f: Field, typ: FieldType)
    requires HasType(f, typ) && !Lossless(f)
    ensures ZeroField(typ) != f
  {
  }

  method NewObject(schema: seq<FieldDecl>) returns (obj: array<Field>)
    ensures fresh(obj) && obj.Length == |schema| && HasTypes(obj[..], schema)
    ensures forall i | 0 <= i < |schema| :: obj[..][i] == ZeroField(schema[i].typ)
  {
    obj := new Field[|schema|](i requires 0 <= i < |schema| => ZeroField(schema[i].typ));
  }

  /** A struct written and read back into a zero object: all of it but the lossy fields, unless nothing was stored. */
  method RoundTrip(obj: array<Field>, schema: seq<FieldDecl>, validTime: string -> bool)
    returns (copy: array<Field>, r: DecodeResult)
    requires ValidSchema(schema) && HasTypes(obj[..], schema)
    ensures fresh(copy) && copy.Length == |schema|
    ensures r == if (forall i | 0 <= i < |schema| :: schema[i].typ == DeletedAt) then NotFound else Ok
    ensures r == Ok ==> copy[..] == Returned(obj[..], schema)
  {
    var data := EncodeObject(obj, schema);
    copy := NewObject(schema);
    ghost var fields, zero := obj[..], copy[..];
    DecodeUndoesEncode(data, fields, schema, validTime);
    r := DecodeObject(data, copy, schema, validTime);
    assert obj[..] == fields;
    ReadBack(data, fields, zero, copy[..], schema, validTime, r);
  }

  lemma ReadBack(hash: Hash, fields: seq<Field>, zero: seq<Field>, after: seq<Field>, schema: seq<FieldDecl>,
                 validTime: string -> bool, r: DecodeResult)
    requires |fields| == |zero| == |after| == |schema|
    requires forall i | 0 <= i < |schema| :: zero[i] == ZeroField(schema[i].typ)
    requires forall i | 0 <= i < |schema| ::
      DecodeField(schema[i].typ, ZeroField(schema[i].typ), TextOf(hash, schema[i].name), validTime) ==
        Some(Returned(fields, schema)[i])
    requires r == Ok ==> Decoded(zero, after, hash, schema, validTime, |schema|)
    requires r.BadField? ==>
      && r.index < |schema| && Decoded(zero, after, hash, schema, validTime, r.index)
      && DecodeField(schema[r.index].typ, zero[r.index], TextOf(hash, schema[r.index].name), validTime).None?
    ensures !r.BadField? && (r == Ok ==> after == Returned(fields, schema))
  {
  }

  /** A pointer to the empty text comes back as nil, and a valid DeletedAt as an invalid one. */
  lemma LossyExamples(time: string, validTime: string -> bool)
    ensures ReadBackField(Ref(Some(Str(""))), Pointer(StringKind), validTime) == Some(Ref(None))
    ensures ReadBackField(Deleted(Some(time)), DeletedAt, validTime) == Some(Deleted(None))
  {
  }
}
