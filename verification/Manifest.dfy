/** The provisioning manifest, its canonical JSON text (RFC 8259, section 7 for strings) and the
    identifiers derived from it by SHA-256, which is taken to be injective. */
module Manifest {
  import opened Sql
  import opened Text

  // ---------- json.dumps(..., ensure_ascii=True) of one string ----------

  function HexDigit(d: nat): (c: char)
    requires d < 16
    ensures HexValue(c) == Some(d)
  {
    if d < 10 then (48 + d) as char else (87 + d) as char
  }

  function HexValue(c: char): Option<nat> {
    var n := c as int;
    if 48 <= n <= 57 then Some(n - 48) else if 97 <= n <= 102 then Some(n - 87) else None
  }

  /** '{0:04x}' of a 16-bit unit. */
  function Hex4(n: nat): (s: string)
    requires n < 0x1_0000
    ensures |s| == 4
  {
    var a := n / 16;
    var b := a / 16;
    [HexDigit(b / 16), HexDigit(b % 16), HexDigit(a % 16), HexDigit(n % 16)]
  }

  function Unit(n: nat): (s: string)
    requires n < 0x1_0000
    ensures |s| == 6
  {
    ['\\', 'u'] + Hex4(n)
  }

  predicate IsPrintable(c: char) {
    32 <= c as int <= 126
  }

  /** The letter of a two-character escape. */
  function ShortEscape(c: char): Option<char> {
    var n := c as int;
    if c == '\"' || c == '\\' then Some(c)
    else if n == 8 then Some('b') else if n == 9 then Some('t') else if n == 10 then Some('n')
    else if n == 12 then Some('f') else if n == 13 then Some('r') else None
  }

  /** One character: quote, backslash and five controls as two characters, printable ASCII as
      itself, the rest as \uXXXX, above U+FFFF as a surrogate pair. */
  function Escaped(c: char): (s: string)
    ensures |s| > 0 && s[0] != '\"'
  {
    var n := c as int;
    if ShortEscape(c).Some? then ['\\', ShortEscape(c).value]
    else if IsPrintable(c) then [c]
    else if n < 0x1_0000 then Unit(n)
    else Unit(0xD800 + (n - 0x1_0000) / 0x400) + Unit(0xDC00 + (n - 0x1_0000) % 0x400)
  }

  /** Six characters that stand for a 16-bit unit: a backslash, 'u' and four lower-case hex digits. */
  predicate IsUnitText(s: string, n: nat) {
    && |s| == 6 && s[0] == '\\' && s[1] == 'u'
    && HexValue(s[2]).Some? && HexValue(s[3]).Some? && HexValue(s[4]).Some? && HexValue(s[5]).Some?
    && n == HexValue(s[2]).value * 4096 + HexValue(s[3]).value * 256 + HexValue(s[4]).value * 16 + HexValue(s[5]).value
  }

  /** The text of every character, as ensure_ascii writes it: short escapes and printable ASCII, */
  lemma ShortText(c: char)
    ensures c == '\"' || c == '\\' ==> Escaped(c) == ['\\', c]
    ensures c as int == 8 ==> Escaped(c) == ['\\', 'b']
    ensures c as int == 9 ==> Escaped(c) == ['\\', 't']
    ensures c as int == 10 ==> Escaped(c) == ['\\', 'n']
    ensures c as int == 12 ==> Escaped(c) == ['\\', 'f']
    ensures c as int == 13 ==> Escaped(c) == ['\\', 'r']
    ensures 32 <= c as int <= 126 && c != '\"' && c != '\\' ==> Escaped(c) == [c]
  {
  }

  /** other control characters and everything up to U+FFFF as one unit, */
  lemma UnitText(c: char)
    requires (c as int < 32 && c as int !in {8, 9, 10, 12, 13}) || 127 <= c as int < 0x1_0000
    ensures IsUnitText(Escaped(c), c as int)
  {
    UnitIsUnitText(c as int);
    assert Escaped(c) == Unit(c as int);
  }

  /** and everything above as a surrogate pair. */
  lemma PairText(c: char, high: nat, low: nat)
    requires 0xD800 <= high < 0xDC00 && 0xDC00 <= low < 0xE000
    requires c as int == 0x1_0000 + (high - 0xD800) * 0x400 + (low - 0xDC00)
    ensures |Escaped(c)| == 12 && IsUnitText(Escaped(c)[..6], high) && IsUnitText(Escaped(c)[6..], low)
  {
    var n := c as int;
    assert (n - 0x1_0000) / 0x400 == high - 0xD800 && (n - 0x1_0000) % 0x400 == low - 0xDC00;
    UnitIsUnitText(high);
    UnitIsUnitText(low);
    PairIsUnits(c, high, low);
  }

  lemma PairIsUnits(c: char, high: nat, low: nat)
    requires 0x1_0000 <= c as int && high < 0x1_0000 && low < 0x1_0000
    requires high == 0xD800 + (c as int - 0x1_0000) / 0x400 && low == 0xDC00 + (c as int - 0x1_0000) % 0x400
    ensures |Escaped(c)| == 12 && Escaped(c)[..6] == Unit(high) && Escaped(c)[6..] == Unit(low)
  {
  }

  lemma UnitIsUnitText(n: nat)
    requires n < 0x1_0000
    ensures IsUnitText(Unit(n), n)
  {
  }

  function EscapedAll(s: string): string {
    if s == [] then [] else Escaped(s[0]) + EscapedAll(s[1..])
  }

  datatype Value = Null | Number(number: nat) | String(text: string)

  function ValueText(v: Value): string {
    match v
    case Null => "null"
    case Number(n) => Numeral(n)
    case String(s) => ['\"'] + EscapedAll(s) + ['\"']
  }

  function Member(key: string, v: Value, tail: string): string {
    (['\"'] + key + ['\"', ':']) + (ValueText(v) + tail)
  }

  function Separated(more: bool, s: string): string {
    if more then [','] + s else s
  }

  /** {"key":value,...} with the separators ',' and ':'. */
  function Members(keys: seq<string>, values: seq<Value>): string
    requires |keys| == |values|
  {
    if keys == [] then ['}']
    else Member(keys[0], values[0], Separated(|keys| > 1, Members(keys[1..], values[1..])))
  }

  function ObjectText(keys: seq<string>, values: seq<Value>): string
    requires |keys| == |values|
  {
    ['{'] + Members(keys, values)
  }

  // ---------- a reader for that text ----------

  datatype Read<T> = Failed | Read(value: T, rest: string)

  function ReadHex4(s: string): Read<nat> {
    if |s| < 4 then Failed
    else
      var a, b, c, d := HexValue(s[0]), HexValue(s[1]), HexValue(s[2]), HexValue(s[3]);
      if a.None? || b.None? || c.None? || d.None? then Failed
      else Read(16 * (16 * (16 * a.value + b.value) + c.value) + d.value, s[4..])
  }

  function ReadUnit(s: string): Read<nat> {
    if |s| < 6 || s[0] != '\\' || s[1] != 'u' then Failed else ReadHex4(s[2..])
  }

  function LongEscape(letter: char): Option<char> {
    if letter == '\"' || letter == '\\' then Some(letter)
    else if letter == 'b' then Some(8 as char) else if letter == 't' then Some(9 as char)
    else if letter == 'n' then Some(10 as char) else if letter == 'f' then Some(12 as char)
    else if letter == 'r' then Some(13 as char) else None
  }

  function ReadUnicode(s: string): Read<char> {
    var high := ReadUnit(s);
    if high.Failed? then Failed
    else if high.value < 0xD800 || 0xE000 <= high.value < 0x1_0000 then Read(high.value as char, high.rest)
    else
      var low := ReadUnit(high.rest);
      if low.Failed? || high.value >= 0xDC00 || !(0xDC00 <= low.value < 0xE000) then Failed
      else Read((0x1_0000 + 0x400 * (high.value - 0xD800) + (low.value - 0xDC00)) as char, low.rest)
  }

  function ReadChar(s: string): Read<char> {
    if s == [] || s[0] == '\"' then Failed
    else if s[0] != '\\' then Read(s[0], s[1..])
    else if |s| > 1 && LongEscape(s[1]).Some? then Read(LongEscape(s[1]).value, s[2..])
    else ReadUnicode(s)
  }

  /** Characters up to the closing quote. */
  function ReadString(s: string): Read<string>
    decreases |s|
  {
    if s == [] then Failed
    else if s[0] == '\"' then Read([], s[1..])
    else
      var first := ReadChar(s);
      if first.Failed? || |first.rest| >= |s| then Failed
      else
        var others := ReadString(first.rest);
        if others.Failed? then Failed else Read([first.value] + others.value, others.rest)
  }

  function DigitsOf(s: string): (n: nat)
    ensures n <= |s| && (forall i :: 0 <= i < n ==> IsDigit(s[i])) && (n < |s| ==> !IsDigit(s[n]))
  {
    if s == [] || !IsDigit(s[0]) then 0 else 1 + DigitsOf(s[1..])
  }

  function ReadValue(s: string): Read<Value> {
    if s == [] then Failed
    else if s[0] == '\"' then
      var text := ReadString(s[1..]);
      if text.Failed? then Failed else Read(String(text.value), text.rest)
    else if IsDigit(s[0]) then Read(Number(NumeralValue(s[..DigitsOf(s)])), s[DigitsOf(s)..])
    else if |s| >= 4 && s[..4] == "null" then Read(Null, s[4..])
    else Failed
  }

  function Skipped(prefix: string, s: string): Option<string> {
    if |prefix| <= |s| && s[..|prefix|] == prefix then Some(s[|prefix|..]) else None
  }

  function AfterMember(more: bool, s: string): Option<string> {
    if more then Skipped([','], s) else Some(s)
  }

  function ReadMember(key: string, s: string): Read<Value> {
    var at := Skipped(['\"'] + key + ['\"', ':'], s);
    if at.None? then Failed else ReadValue(at.value)
  }

  function ReadMembers(keys: seq<string>, s: string): Option<seq<Value>> {
    if keys == [] then (if s == ['}'] then Some([]) else None)
    else
      var value := ReadMember(keys[0], s);
      if value.Failed? then None
      else
        var next := AfterMember(|keys| > 1, value.rest);
        if next.None? then None
        else
          var others := ReadMembers(keys[1..], next.value);
          if others.None? then None else Some([value.value] + others.value)
  }

  // ---------- the text can be read back ----------

  lemma UnitRoundTrip(n: nat, rest: string)
    requires n < 0x1_0000
    ensures ReadUnit(Unit(n) + rest) == Read(n, rest)
  {
  }

  lemma PairRoundTrip(high: nat, low: nat, rest: string)
    requires 0xD800 <= high < 0xDC00 <= low < 0xE000
    ensures ReadUnicode(Unit(high) + Unit(low) + rest)
      == Read((0x1_0000 + 0x400 * (high - 0xD800) + (low - 0xDC00)) as char, rest)
  {
    UnitRoundTrip(low, rest);
    UnitRoundTrip(high, Unit(low) + rest);
    assert Unit(high) + Unit(low) + rest == Unit(high) + (Unit(low) + rest);
  }

  lemma UnicodeRoundTrip(c: char, rest: string)
    requires ShortEscape(c).None? && !IsPrintable(c)
    ensures ReadUnicode(Escaped(c) + rest) == Read(c, rest)
  {
    if c as int < 0x1_0000 { UnitRoundTrip(c as int, rest); }
    else { PairRoundTrip(0xD800 + (c as int - 0x1_0000) / 0x400, 0xDC00 + (c as int - 0x1_0000) % 0x400, rest); }
  }

  lemma CharRoundTrip(c: char, rest: string)
    ensures ReadChar(Escaped(c) + rest) == Read(c, rest)
  {
    var s := Escaped(c) + rest;
    if ShortEscape(c).Some? {
      assert s[2..] == rest && s[1] == ShortEscape(c).value;
    } else if IsPrintable(c) {
      assert s[1..] == rest;
    } else {
      UnicodeRoundTrip(c, rest);
      assert s[0] == '\\' && s[1] == 'u';
    }
  }

  lemma {:induction false} StringRoundTrip(s: string, rest: string)
    ensures ReadString(EscapedAll(s) + ['\"'] + rest) == Read(s, rest)
  {
    var text := EscapedAll(s) + ['\"'] + rest;
    if s == [] {
      assert text == ['\"'] + rest;
    } else {
      var others := EscapedAll(s[1..]) + ['\"'] + rest;
      StringRoundTrip(s[1..], rest);
      OneMoreRead(s[0], others, s[1..], rest);
      assert text == Escaped(s[0]) + others;
      assert [s[0]] + s[1..] == s;
    }
  }

  lemma OneMoreRead(c: char, others: string, s: string, rest: string)
    requires ReadString(others) == Read(s, rest)
    ensures ReadString(Escaped(c) + others) == Read([c] + s, rest)
  {
    CharRoundTrip(c, others);
    assert (Escaped(c) + others)[0] == Escaped(c)[0];
  }

  lemma {:induction false} NumberRoundTrip(s: string, rest: string)
    requires (forall i :: 0 <= i < |s| ==> IsDigit(s[i])) && (rest != [] ==> !IsDigit(rest[0]))
    ensures DigitsOf(s + rest) == |s|
  {
    if s == [] {
      assert s + rest == rest;
    } else {
      assert (s + rest)[1..] == s[1..] + rest;
      NumberRoundTrip(s[1..], rest);
    }
  }

  lemma NullRoundTrip(rest: string)
    ensures ReadValue("null" + rest) == Read(Null, rest)
  {
  }

  lemma NumberValueRoundTrip(n: nat, rest: string)
    requires rest != [] ==> !IsDigit(rest[0])
    ensures ReadValue(Numeral(n) + rest) == Read(Number(n), rest)
  {
    var digits := Numeral(n);
    var s := digits + rest;
    NumberRoundTrip(digits, rest);
    NumeralRoundTrip(n);
    assert s[0] == digits[0] && s[..|digits|] == digits && s[|digits|..] == rest;
  }

  lemma Quoted(body: string, rest: string)
    ensures var s := ['\"'] + body + ['\"'] + rest; s[0] == '\"' && s[1..] == body + ['\"'] + rest
  {
  }

  lemma TextValueRoundTrip(t: string, rest: string)
    ensures ReadValue(['\"'] + EscapedAll(t) + ['\"'] + rest) == Read(String(t), rest)
  {
    StringRoundTrip(t, rest);
    Quoted(EscapedAll(t), rest);
  }

  lemma ValueRoundTrip(v: Value, rest: string)
    requires rest != [] ==> !IsDigit(rest[0])
    ensures ReadValue(ValueText(v) + rest) == Read(v, rest)
  {
    match v
    case Null => NullRoundTrip(rest);
    case Number(n) => NumberValueRoundTrip(n, rest);
    case String(t) => TextValueRoundTrip(t, rest);
  }

  lemma SkipRoundTrip(prefix: string, rest: string)
    ensures Skipped(prefix, prefix + rest) == Some(rest)
  {
  }

  lemma MemberRoundTrip(key: string, v: Value, tail: string)
    requires tail != [] ==> !IsDigit(tail[0])
    ensures ReadMember(key, Member(key, v, tail)) == Read(v, tail)
  {
    SkipRoundTrip(['\"'] + key + ['\"', ':'], ValueText(v) + tail);
    ValueRoundTrip(v, tail);
  }

  lemma SeparatorRoundTrip(more: bool, s: string)
    ensures AfterMember(more, Separated(more, s)) == Some(s)
    ensures s != [] && !IsDigit(s[0]) ==> Separated(more, s) != [] && !IsDigit(Separated(more, s)[0])
  {
  }

  lemma MembersStart(keys: seq<string>, values: seq<Value>)
    requires |keys| == |values|
    ensures Members(keys, values) != [] && !IsDigit(Members(keys, values)[0])
  {
  }

  lemma {:induction false} MembersRoundTrip(keys: seq<string>, values: seq<Value>)
    requires |keys| == |values|
    ensures ReadMembers(keys, Members(keys, values)) == Some(values)
  {
    if keys != [] {
      var others := Members(keys[1..], values[1..]);
      MembersStart(keys[1..], values[1..]);
      SeparatorRoundTrip(|keys| > 1, others);
      MemberRoundTrip(keys[0], values[0], Separated(|keys| > 1, others));
      MembersRoundTrip(keys[1..], values[1..]);
      assert [values[0]] + values[1..] == values;
    }
  }

  /** The canonical text determines the values. */
  lemma ObjectTextInjective(keys: seq<string>, a: seq<Value>, b: seq<Value>)
    requires |keys| == |a| == |b| && ObjectText(keys, a) == ObjectText(keys, b)
    ensures a == b
  {
    assert Members(keys, a) == ObjectText(keys, a)[1..] == ObjectText(keys, b)[1..] == Members(keys, b);
    MembersRoundTrip(keys, a);
    MembersRoundTrip(keys, b);
  }

  // ---------- the manifest and its fingerprint ----------

  /** MinimalProvisioningManifest after validation. */
  datatype ProvisioningManifest = ProvisioningManifest(
    version: nat, operation: string, tenant: nat, actor: nat,
    organizationCode: string, organizationName: string,
    location: LocationFields,
    staffUsername: string, staffDisplayName: string, staffEmail: Option<string>, roleName: string)

  datatype LocationFields = LocationFields(
    code: string, name: string, timezone: string,
    addressLine1: Option<string>, addressLine2: Option<string>, locality: Option<string>, area: Option<string>,
    postalCode: Option<string>, country: Option<string>, phone: Option<string>, email: Option<string>)

  /** The field names in the order of sort_keys. */
  const KEYS: seq<string> := [
    "actor_membership_id", "location_address_line1", "location_address_line2", "location_administrative_area",
    "location_code", "location_country_code", "location_email", "location_locality", "location_name",
    "location_phone", "location_postal_code", "location_timezone", "manifest_version", "operation_id",
    "organization_code", "organization_name", "role_name", "staff_display_name", "staff_email", "staff_username",
    "tenant_id"]

  /** `a` comes before `b` in code-point order: they agree up to position k and differ there. */
  predicate ComesBefore(a: string, b: string, k: nat) {
    k < |a| && k < |b| && a[..k] == b[..k] && a[k] < b[k]
  }

  /** Where each key first differs from the next. */
  const DIFFERENCES: seq<nat> := [0, 21, 11, 9, 11, 9, 9, 9, 9, 10, 9, 0, 0, 1, 13, 0, 0, 6, 6, 0]

  /** KEYS is sorted, as sort_keys leaves it. */
  lemma KeysAreSorted(i: nat)
    requires i + 1 < |KEYS|
    ensures |DIFFERENCES| == |KEYS| - 1 && ComesBefore(KEYS[i], KEYS[i + 1], DIFFERENCES[i])
  {
  }

  function Optional(s: Option<string>): Value {
    if s.Some? then String(s.value) else Null
  }

  /** The field values in the order of KEYS. */
  function Values(m: ProvisioningManifest): seq<Value> {
    var l := m.location;
    [Number(m.actor), Optional(l.addressLine1), Optional(l.addressLine2), Optional(l.area),
     String(l.code), Optional(l.country), Optional(l.email), Optional(l.locality), String(l.name),
     Optional(l.phone), Optional(l.postalCode), String(l.timezone), Number(m.version), String(m.operation),
     String(m.organizationCode), String(m.organizationName), String(m.roleName), String(m.staffDisplayName),
     Optional(m.staffEmail), String(m.staffUsername), Number(m.tenant)]
  }

  /** The value each field name stands for. */
  function FieldNamed(m: ProvisioningManifest, key: string): Option<Value> {
    var l := m.location;
    match key
    case "manifest_version" => Some(Number(m.version))
    case "operation_id" => Some(String(m.operation))
    case "tenant_id" => Some(Number(m.tenant))
    case "actor_membership_id" => Some(Number(m.actor))
    case "organization_code" => Some(String(m.organizationCode))
    case "organization_name" => Some(String(m.organizationName))
    case "location_code" => Some(String(l.code))
    case "location_name" => Some(String(l.name))
    case "location_timezone" => Some(String(l.timezone))
    case "location_address_line1" => Some(Optional(l.addressLine1))
    case "location_address_line2" => Some(Optional(l.addressLine2))
    case "location_locality" => Some(Optional(l.locality))
    case "location_administrative_area" => Some(Optional(l.area))
    case "location_postal_code" => Some(Optional(l.postalCode))
    case "location_country_code" => Some(Optional(l.country))
    case "location_phone" => Some(Optional(l.phone))
    case "location_email" => Some(Optional(l.email))
    case "staff_username" => Some(String(m.staffUsername))
    case "staff_display_name" => Some(String(m.staffDisplayName))
    case "staff_email" => Some(Optional(m.staffEmail))
    case "role_name" => Some(String(m.roleName))
    case _ => None
  }

  /** Each value stands at the place of its own field's name. */
  lemma FieldsStandUnderTheirNames(m: ProvisioningManifest, i: nat)
    requires i < |KEYS|
    ensures |Values(m)| == |KEYS| == 21 && FieldNamed(m, KEYS[i]) == Some(Values(m)[i])
  {
  }

  function CanonicalText(m: ProvisioningManifest): string {
    ObjectText(KEYS, Values(m))
  }

  /** A SHA-256 digest, identified with what was hashed. */
  datatype Digest = Sha256(preimage: string)

  function Fingerprint(m: ProvisioningManifest): Digest {
    Sha256(CanonicalText(m))
  }

  /** 'hq-' followed by the digest of tenant:operation. */
  datatype HeadquartersOperation = Hq(digest: Digest)

  function HeadquartersOperationOf(tenant: nat, operation: string): HeadquartersOperation {
    Hq(Sha256(Numeral(tenant) + [':'] + operation))
  }

  lemma ValuesInjective(a: ProvisioningManifest, b: ProvisioningManifest)
    requires Values(a) == Values(b)
    ensures a == b
  {
  }

  /** Two manifests have one fingerprint exactly when they are the same manifest. */
  lemma FingerprintIdentifies(a: ProvisioningManifest, b: ProvisioningManifest)
    ensures Fingerprint(a) == Fingerprint(b) <==> a == b
  {
    if Fingerprint(a) == Fingerprint(b) {
      ObjectTextInjective(KEYS, Values(a), Values(b));
      ValuesInjective(a, b);
    }
  }

  /** Distinct tenants or operations never share a headquarters operation id, even when the
      operation id itself contains colons. */
  lemma HeadquartersOperationIdentifies(t1: nat, o1: string, t2: nat, o2: string)
    ensures HeadquartersOperationOf(t1, o1) == HeadquartersOperationOf(t2, o2) <==> t1 == t2 && o1 == o2
  {
    if HeadquartersOperationOf(t1, o1) == HeadquartersOperationOf(t2, o2) {
      FirstNumeralIsDetermined(t1, o1, t2, o2, ':');
    }
  }
}
