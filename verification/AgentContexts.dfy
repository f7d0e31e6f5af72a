/** `AgentContext` and its signed header: normalise, encode, sign, split, verify, decode. */
module AgentContexts {
  import opened Text
  import B64 = Base64
  import Json = FlatJson

  type PyText = Json.PyText

  /** What `json.loads` delivers. An object is a dict, with its keys distinct and in order. */
  datatype Data =
    | Null
    | Bool(b: bool)
    | Number(zero: bool, repr: string)
    | Str(text: PyText)
    | List(items: seq<Data>)
    | Object(fields: seq<Field>)

  datatype Field = Field(key: PyText, value: Data)

  /** Over texts, as it is declared, or over whatever a header delivers. */
  datatype AgentContext<T> = AgentContext(
    rmId: T, rmName: T, role: T, teamId: T,
    accounts: seq<T>, clearance: seq<T>, userEmail: T, userRole: T)

  predicate IsUserRole(t: PyText) {
    t == [] || t == Json.Codes("admin") || t == Json.Codes("analyst") || t == Json.Codes("viewer")
  }

  /** Python's truth value is False. */
  predicate Falsy(d: Data) {
    match d
    case Null => true
    case Bool(b) => !b
    case Number(zero, _) => zero
    case Str(text) => text == []
    case List(items) => items == []
    case Object(fields) => fields == []
  }

  datatype Built = Built(context: AgentContext<Data>) | Unhashable

  /** `__post_init__`: no clearance means the lowest one, an unknown user role none. A role that is a
      list or an object cannot be looked up. */
  function Constructed(c: AgentContext<Data>): Built {
    var d := c.(clearance := if c.clearance == [] then [Str(Json.Codes("standard"))] else c.clearance);
    if Falsy(c.userRole) then Built(d)
    else if c.userRole.List? || c.userRole.Object? then Unhashable
    else if c.userRole.Str? && IsUserRole(c.userRole.text) then Built(d)
    else Built(d.(userRole := Str([])))
  }

  function Texts(items: seq<PyText>): seq<Data> { seq(|items|, i requires 0 <= i < |items| => Str(items[i])) }

  function Lifted(c: AgentContext<PyText>): AgentContext<Data> {
    AgentContext(Str(c.rmId), Str(c.rmName), Str(c.role), Str(c.teamId), Texts(c.accounts), Texts(c.clearance),
                 Str(c.userEmail), Str(c.userRole))
  }

  /** The contexts that exist: those that a constructor call returned. */
  predicate Valid(c: AgentContext<PyText>) { Constructed(Lifted(c)) == Built(Lifted(c)) }

  lemma ConstructedIsValid(c: AgentContext<Data>)
    ensures Constructed(c).Built? ==> Constructed(Constructed(c).context) == Constructed(c)
  {
  }

  // ---- Secrets ----------------------------------------------------------------

  type Environ = map<string, string>

  function Lookup(env: Environ, name: string, otherwise: string): string {
    if name in env then env[name] else otherwise
  }

  function CurrentSecret(env: Environ): string {
    Lookup(env, "CONTEXT_HMAC_SECRET", Lookup(env, "JWT_SECRET", "dev-secret-change-in-prod"))
  }

  /** An empty previous secret counts as none. */
  function PreviousSecret(env: Environ): Option<string> {
    var previous := Lookup(env, "CONTEXT_HMAC_SECRET_PREVIOUS", "");
    if previous == "" then None else Some(previous)
  }

  /** The hex digest of HMAC-SHA256, for a secret and a payload. */
  type Mac = (string, string) -> string

  predicate IsHex(s: string) { forall i :: 0 <= i < |s| ==> '0' <= s[i] <= '9' || 'a' <= s[i] <= 'f' }

  ghost predicate HexMac(mac: Mac) { forall secret, payload :: IsHex(mac(secret, payload)) }

  // ---- Verification ----------------------------------------------------------

  datatype Verified = Payload(text: string) | ValueError | TypeError

  predicate IsAscii(s: string) { forall i :: 0 <= i < |s| ==> s[i] < '\U{80}' }

  /** `_verify_and_split`. Comparing a signature that is not ASCII raises TypeError. */
  function VerifyAndSplit(raw: string, mac: Mac, env: Environ): Verified {
    var parts := Split(raw, '.');
    if |parts| != 2 then ValueError
    else if !IsAscii(parts[1]) then TypeError
    else if parts[1] == mac(CurrentSecret(env), parts[0]) then Payload(parts[0])
    else if PreviousSecret(env).Some? && parts[1] == mac(PreviousSecret(env).value, parts[0]) then Payload(parts[0])
    else ValueError
  }

  predicate SignedUnder(payload: string, sig: string, mac: Mac, env: Environ) {
    sig == mac(CurrentSecret(env), payload)
    || (PreviousSecret(env).Some? && sig == mac(PreviousSecret(env).value, payload))
  }

  /** A payload is accepted exactly when the header is that payload, one dot, and its signature under
      the current or the previous secret. */
  lemma AcceptedIffSigned(raw: string, mac: Mac, env: Environ, payload: string)
    requires HexMac(mac)
    ensures VerifyAndSplit(raw, mac, env) == Payload(payload) <==>
      exists sig :: raw == payload + ['.'] + sig && Free(payload, '.') && SignedUnder(payload, sig, mac, env)
  {
    var parts := Split(raw, '.');
    if VerifyAndSplit(raw, mac, env) == Payload(payload) {
      SplitParts(raw, '.');
      assert raw == payload + ['.'] + parts[1];
    }
    if sig :| raw == payload + ['.'] + sig && Free(payload, '.') && SignedUnder(payload, sig, mac, env) {
      assert IsHex(sig);
      SplitJoined(payload, sig, '.');
    }
  }

  // ---- The header ------------------------------------------------------------

  const FIELDS := [
    "rm_id", "rm_name", "role", "team_id", "assigned_account_ids", "compliance_clearance", "user_email", "user_role"]

  function ToDict(c: AgentContext<PyText>): seq<Json.Member> {
    [Json.Member(Json.Codes("rm_id"), Json.Str(c.rmId)),
     Json.Member(Json.Codes("rm_name"), Json.Str(c.rmName)),
     Json.Member(Json.Codes("role"), Json.Str(c.role)),
     Json.Member(Json.Codes("team_id"), Json.Str(c.teamId)),
     Json.Member(Json.Codes("assigned_account_ids"), Json.List(c.accounts)),
     Json.Member(Json.Codes("compliance_clearance"), Json.List(c.clearance)),
     Json.Member(Json.Codes("user_email"), Json.Str(c.userEmail)),
     Json.Member(Json.Codes("user_role"), Json.Str(c.userRole))]
  }

  function Bytes(s: string): seq<B64.Byte>
    requires Json.Printable(s)
  {
    seq(|s|, i requires 0 <= i < |s| => s[i] as int)
  }

  function OfBytes(bytes: seq<B64.Byte>): Option<string> {
    if forall i :: 0 <= i < |bytes| ==> bytes[i] < 128
    then Some(seq(|bytes|, i requires 0 <= i < |bytes| => bytes[i] as char)) else None
  }

  /** `base64.b64encode(json.dumps(data).encode())` */
  function Encoded(ms: seq<Json.Member>): string {
    Json.PrintPrintable(ms);
    B64.Encode(Bytes(Json.Print(ms)))
  }

  function PayloadOf(c: AgentContext<PyText>): string { Encoded(ToDict(c)) }

  function ToHeader(c: AgentContext<PyText>, mac: Mac, env: Environ): string {
    PayloadOf(c) + ['.'] + mac(CurrentSecret(env), PayloadOf(c))
  }

  /** `data.get(key, otherwise)` */
  function Get(fields: seq<Field>, key: string, otherwise: Data): Data {
    if fields == [] then otherwise
    else if fields[0].key == Json.Codes(key) then fields[0].value
    else Get(fields[1..], key, otherwise)
  }

  /** `tuple(d)`: the characters of a text, the keys of an object; None if it raises TypeError. */
  function TupleOf(d: Data): Option<seq<Data>> {
    match d
    case List(items) => Some(items)
    case Str(text) => Some(seq(|text|, i requires 0 <= i < |text| => Str([text[i]])))
    case Object(fields) => Some(seq(|fields|, i requires 0 <= i < |fields| => Str(fields[i].key)))
    case _ => None
  }

  datatype Decoded = Accepted(context: AgentContext<Data>) | RaisesValueError | RaisesTypeError | RaisesAttributeError

  function OfFields(fs: seq<Field>): Decoded {
    match (TupleOf(Get(fs, "assigned_account_ids", List([]))),
           TupleOf(Get(fs, "compliance_clearance", List([Str(Json.Codes("standard"))]))))
    case (Some(accounts), Some(clearance)) =>
      (match Constructed(AgentContext(Get(fs, "rm_id", Str(Json.Codes("unknown"))), Get(fs, "rm_name", Str([])),
                                      Get(fs, "role", Str(Json.Codes("readonly"))), Get(fs, "team_id", Str([])),
                                      accounts, clearance, Get(fs, "user_email", Str([])),
                                      Get(fs, "user_role", Str([]))))
       case Built(context) => Accepted(context)
       case Unhashable => RaisesTypeError)
    case _ => RaisesTypeError
  }

  /** `json.loads(base64.b64decode(payload))`; None stands for the ValueErrors of both. */
  type Decoder = string -> Option<Data>

  function FromHeader(raw: string, decode: Decoder, mac: Mac, env: Environ): Decoded {
    match VerifyAndSplit(raw, mac, env)
    case ValueError => RaisesValueError
    case TypeError => RaisesTypeError
    case Payload(payload) =>
      match decode(payload)
      case None => RaisesValueError
      case Some(Object(fields)) => OfFields(fields)
      case _ => RaisesAttributeError
  }

  // ---- What decoders agree on ------------------------------------------------

  function Embedded(v: Json.Value): Data {
    match v case Str(text) => Str(text) case List(items) => List(Texts(items))
  }

  function EmbeddedFields(ms: seq<Json.Member>): seq<Field> {
    seq(|ms|, i requires 0 <= i < |ms| => Field(ms[i].key, Embedded(ms[i].value)))
  }

  predicate DistinctKeys(ms: seq<Json.Member>) {
    forall i, j :: 0 <= i < j < |ms| ==> ms[i].key != ms[j].key
  }

  /** A strict decoder for the texts that contexts are written in. */
  function Strict(payload: string): Option<Data> {
    match B64.Decode(payload)
    case None => None
    case Some(bytes) =>
      match OfBytes(bytes)
      case None => None
      case Some(text) =>
        match Json.Parse(text)
        case None => None
        case Some(ms) => if DistinctKeys(ms) then Some(Object(EmbeddedFields(ms))) else None
  }

  /** All that is asked of a decoder: it reads what is encoded, surrogate pairs joined. What else it accepts
      is open: foreign characters in base64, any JSON, other encodings. */
  ghost predicate Reads(decode: Decoder) {
    forall ms :: DistinctKeys(Json.JoinedMembers(ms)) ==>
      decode(Encoded(ms)) == Some(Object(EmbeddedFields(Json.JoinedMembers(ms))))
  }

  /** There is such a decoder. */
  lemma StrictReads()
    ensures Reads(Strict)
  {
    forall ms | DistinctKeys(Json.JoinedMembers(ms))
      ensures Strict(Encoded(ms)) == Some(Object(EmbeddedFields(Json.JoinedMembers(ms))))
    {
      StrictReadsOne(ms);
    }
    hide Strict, Encoded, DistinctKeys;
  }

  lemma StrictReadsOne(ms: seq<Json.Member>)
    requires DistinctKeys(Json.JoinedMembers(ms))
    ensures Strict(Encoded(ms)) == Some(Object(EmbeddedFields(Json.JoinedMembers(ms))))
  {
    var text := Json.Print(ms);
    Json.PrintPrintable(ms);
    BytesRoundTrip(text);
    B64.DecodeEncode(Bytes(text));
    Json.RoundTrip(ms);
    hide B64.Encode, B64.Decode, Json.Print, Json.Parse, Json.JoinedMembers;
    hide EmbeddedFields, DistinctKeys, OfBytes, Bytes;
  }

  // ---- The round trip --------------------------------------------------------

  lemma CodesInjective(a: string, b: string)
    ensures Json.Codes(a) == Json.Codes(b) <==> a == b
  {
  }

  lemma FieldsDistinct()
    ensures forall i, j :: 0 <= i < j < |FIELDS| ==> FIELDS[i] != FIELDS[j]
  {
  }

  lemma KeysDistinct(c: AgentContext<PyText>)
    ensures DistinctKeys(ToDict(c)) && forall i :: 0 <= i < |FIELDS| ==> ToDict(c)[i].key == Json.Codes(FIELDS[i])
  {
    FieldsDistinct();
    var ms := ToDict(c);
    forall i, j | 0 <= i < j < |ms| ensures ms[i].key != ms[j].key {
      CodesInjective(FIELDS[i], FIELDS[j]);
    }
  }

  lemma {:induction false} GetAt(fs: seq<Field>, i: nat, key: string, otherwise: Data)
    requires i < |fs| && fs[i].key == Json.Codes(key) && forall j :: 0 <= j < i ==> fs[j].key != Json.Codes(key)
    ensures Get(fs, key, otherwise) == fs[i].value
  {
    if i > 0 {
      assert fs[1..][i - 1] == fs[i];
      GetAt(fs[1..], i - 1, key, otherwise);
    }
  }

  lemma FieldOf(c: AgentContext<PyText>, i: nat, otherwise: Data)
    requires i < |FIELDS|
    ensures Get(EmbeddedFields(ToDict(c)), FIELDS[i], otherwise) == Embedded(ToDict(c)[i].value)
  {
    KeysDistinct(c);
    var ms := ToDict(c);
    var fs := EmbeddedFields(ms);
    assert forall j :: 0 <= j < |ms| ==> fs[j].key == ms[j].key;
    GetAt(fs, i, FIELDS[i], otherwise);
  }

  lemma DictRoundTrip(c: AgentContext<PyText>)
    requires Valid(c)
    ensures OfFields(EmbeddedFields(ToDict(c))) == Accepted(Lifted(c))
  {
    FieldOf(c, 0, Str(Json.Codes("unknown")));
    FieldOf(c, 1, Str([]));
    FieldOf(c, 2, Str(Json.Codes("readonly")));
    FieldOf(c, 3, Str([]));
    FieldOf(c, 4, List([]));
    FieldOf(c, 5, List([Str(Json.Codes("standard"))]));
    FieldOf(c, 6, Str([]));
    FieldOf(c, 7, Str([]));
    hide Get, EmbeddedFields, Json.Codes, Constructed;
  }

  lemma BytesRoundTrip(s: string)
    requires Json.Printable(s)
    ensures OfBytes(Bytes(s)) == Some(s)
  {
    var bytes := Bytes(s);
    assert forall i :: 0 <= i < |bytes| ==> bytes[i] == s[i] as int && bytes[i] < 128;
    assert OfBytes(bytes).value == s;
  }

  /** The context that its own JSON spells: surrogate pairs are joined. */
  function JoinedContext(c: AgentContext<PyText>): AgentContext<PyText> {
    AgentContext(Json.Joined(c.rmId), Json.Joined(c.rmName), Json.Joined(c.role), Json.Joined(c.teamId),
                 Json.JoinedItems(c.accounts), Json.JoinedItems(c.clearance), Json.Joined(c.userEmail),
                 Json.Joined(c.userRole))
  }

  predicate PairFree(c: AgentContext<PyText>) {
    && Json.PairFree(c.rmId) && Json.PairFree(c.rmName) && Json.PairFree(c.role) && Json.PairFree(c.teamId)
    && Json.PairFreeItems(c.accounts) && Json.PairFreeItems(c.clearance)
    && Json.PairFree(c.userEmail) && Json.PairFree(c.userRole)
  }

  lemma JoinedContextIff(c: AgentContext<PyText>)
    ensures JoinedContext(c) == c <==> PairFree(c)
  {
    Json.JoinedIff(c.rmId);
    Json.JoinedIff(c.rmName);
    Json.JoinedIff(c.role);
    Json.JoinedIff(c.teamId);
    Json.JoinedItemsIff(c.accounts);
    Json.JoinedItemsIff(c.clearance);
    Json.JoinedIff(c.userEmail);
    Json.JoinedIff(c.userRole);
    hide Json.Joined, Json.JoinedItems, Json.PairFree, Json.PairFreeItems;
  }

  lemma AsciiStays(s: string)
    requires IsAscii(s)
    ensures Json.Joined(Json.Codes(s)) == Json.Codes(s)
  {
    Json.JoinedIff(Json.Codes(s));
  }

  lemma JoinedIsValid(c: AgentContext<PyText>)
    requires Valid(c)
    ensures Valid(JoinedContext(c))
  {
    AsciiStays("admin");
    AsciiStays("analyst");
    AsciiStays("viewer");
    assert c.clearance != [] by { assert Constructed(Lifted(c)).context.clearance != []; }
    assert IsUserRole(c.userRole);
    hide Json.Codes;
  }

  lemma {:induction false} JoinedAt(ms: seq<Json.Member>)
    ensures |Json.JoinedMembers(ms)| == |ms|
    ensures forall i :: 0 <= i < |ms| ==>
      Json.JoinedMembers(ms)[i] == Json.Member(Json.Joined(ms[i].key), Json.JoinedValue(ms[i].value))
  {
    if ms != [] {
      JoinedAt(ms[1..]);
      hide Json.Joined, Json.JoinedValue;
    }
  }

  lemma JoinedDictAt(c: AgentContext<PyText>, i: nat)
    requires i < |FIELDS|
    ensures |ToDict(c)| == |FIELDS| && ToDict(c)[i].key == Json.Codes(FIELDS[i])
    ensures |ToDict(JoinedContext(c))| == |FIELDS|
    ensures ToDict(JoinedContext(c))[i] == Json.Member(ToDict(c)[i].key, Json.JoinedValue(ToDict(c)[i].value))
  {
  }

  lemma JoinedDict(c: AgentContext<PyText>)
    ensures Json.JoinedMembers(ToDict(c)) == ToDict(JoinedContext(c))
  {
    JoinedAt(ToDict(c));
    JoinedDictAt(c, 0);
    forall i: nat | i < |FIELDS| ensures Json.JoinedMembers(ToDict(c))[i] == ToDict(JoinedContext(c))[i] {
      JoinedDictAt(c, i);
      AsciiFields(i);
      AsciiStays(FIELDS[i]);
      hide *;
    }
    hide *;
  }

  lemma AsciiFields(i: nat)
    requires i < |FIELDS|
    ensures IsAscii(FIELDS[i])
  {
  }

  lemma PayloadReads(c: AgentContext<PyText>, decode: Decoder)
    requires Reads(decode)
    ensures Free(PayloadOf(c), '.')
    ensures decode(PayloadOf(c)) == Some(Object(EmbeddedFields(ToDict(JoinedContext(c)))))
  {
    Json.PrintPrintable(ToDict(c));
    B64.EncodeHasNoDot(Bytes(Json.Print(ToDict(c))));
    JoinedDict(c);
    KeysDistinct(JoinedContext(c));
    hide B64.Encode, Json.Print, ToDict, EmbeddedFields, JoinedContext, DistinctKeys, Json.JoinedMembers, Bytes;
  }

  /** The header signed in one environment is read back in another exactly when it is signed under
      one of the secrets there; otherwise it is refused with ValueError. */
  lemma HeaderAcceptedIff(c: AgentContext<PyText>, decode: Decoder, mac: Mac, signing: Environ, reading: Environ)
    requires Valid(c) && HexMac(mac) && Reads(decode)
    ensures FromHeader(ToHeader(c, mac, signing), decode, mac, reading)
         == if SignedUnder(PayloadOf(c), mac(CurrentSecret(signing), PayloadOf(c)), mac, reading)
            then Accepted(Lifted(JoinedContext(c))) else RaisesValueError
  {
    var payload := PayloadOf(c);
    var sig := mac(CurrentSecret(signing), payload);
    PayloadReads(c, decode);
    JoinedIsValid(c);
    DictRoundTrip(JoinedContext(c));
    assert ToHeader(c, mac, signing) == payload + ['.'] + sig && IsHex(sig);
    hide *;
    VerifyOwn(payload, sig, mac, reading);
    FromVerified(payload + ['.'] + sig, decode, mac, reading);
  }

  lemma VerifyOwn(payload: string, sig: string, mac: Mac, env: Environ)
    requires Free(payload, '.') && IsHex(sig)
    ensures VerifyAndSplit(payload + ['.'] + sig, mac, env)
         == if SignedUnder(payload, sig, mac, env) then Payload(payload) else ValueError
  {
    SplitJoined(payload, sig, '.');
    hide Split, Lookup;
  }

  lemma FromVerified(raw: string, decode: Decoder, mac: Mac, env: Environ)
    ensures VerifyAndSplit(raw, mac, env) == ValueError ==> FromHeader(raw, decode, mac, env) == RaisesValueError
    ensures forall payload, fs ::
      (VerifyAndSplit(raw, mac, env) == Payload(payload) && decode(payload) == Some(Object(fs)) ==>
        FromHeader(raw, decode, mac, env) == OfFields(fs))
  {
  }

  lemma LiftedIff(c: AgentContext<PyText>)
    ensures Lifted(JoinedContext(c)) == Lifted(c) <==> PairFree(c)
  {
    JoinedContextIff(c);
    TextsInjective(JoinedContext(c).accounts, c.accounts);
    TextsInjective(JoinedContext(c).clearance, c.clearance);
    hide Texts, PairFree;
  }

  lemma TextsInjective(a: seq<PyText>, b: seq<PyText>)
    ensures Texts(a) == Texts(b) <==> a == b
  {
    if Texts(a) == Texts(b) {
      assert |a| == |Texts(a)| == |b|;
      assert forall i :: 0 <= i < |a| ==> Texts(a)[i] == Str(a[i]) && Texts(b)[i] == Str(b[i]);
    }
  }

  /** Main theorem of the header: a context comes back unchanged, whatever the decoder takes besides,
      exactly if none of its texts has a high surrogate directly before a low one. */
  lemma HeaderRoundTrip(c: AgentContext<PyText>, decode: Decoder, mac: Mac, env: Environ)
    requires Valid(c) && HexMac(mac) && Reads(decode)
    ensures FromHeader(ToHeader(c, mac, env), decode, mac, env) == Accepted(Lifted(c)) <==> PairFree(c)
  {
    HeaderAcceptedIff(c, decode, mac, env, env);
    LiftedIff(c);
    hide FromHeader, PairFree, Lifted, JoinedContext, Valid, Reads;
  }

  /** Rotation: it still does after the secret was replaced, while the old one, if it is not empty, is
      configured as the previous one. */
  lemma HeaderSurvivesRotation(c: AgentContext<PyText>, decode: Decoder, mac: Mac, signing: Environ, rotated: Environ)
    requires Valid(c) && HexMac(mac) && Reads(decode)
    requires CurrentSecret(signing) != ""
    requires Lookup(rotated, "CONTEXT_HMAC_SECRET_PREVIOUS", "") == CurrentSecret(signing)
    ensures FromHeader(ToHeader(c, mac, signing), decode, mac, rotated) == Accepted(Lifted(c)) <==> PairFree(c)
  {
    HeaderAcceptedIff(c, decode, mac, signing, rotated);
    LiftedIff(c);
    hide FromHeader, PairFree, Lifted, JoinedContext, Valid, Reads;
  }

  /** An empty secret cannot be rotated out: as the previous one it counts as none. */
  lemma EmptySecretDoesNotRotate(c: AgentContext<PyText>, decode: Decoder, mac: Mac, signing: Environ, rotated: Environ)
    requires Valid(c) && HexMac(mac) && Reads(decode)
    requires CurrentSecret(signing) == "" && Lookup(rotated, "CONTEXT_HMAC_SECRET_PREVIOUS", "") == ""
    requires mac(CurrentSecret(rotated), PayloadOf(c)) != mac("", PayloadOf(c))
    ensures FromHeader(ToHeader(c, mac, signing), decode, mac, rotated) == RaisesValueError
  {
    HeaderAcceptedIff(c, decode, mac, signing, rotated);
    hide FromHeader, Lifted, JoinedContext, Valid, Reads;
  }

  // ---- Headers from elsewhere ------------------------------------------------

  /** Verification raises TypeError, where ValueError is promised for a bad signature, exactly for two
      segments of which the second is not ASCII. */
  lemma VerifyTypeErrorIff(raw: string, mac: Mac, env: Environ)
    ensures VerifyAndSplit(raw, mac, env) == TypeError <==>
      exists payload, sig :: raw == payload + ['.'] + sig && Free(payload, '.') && Free(sig, '.') && !IsAscii(sig)
  {
    var parts := Split(raw, '.');
    if |parts| == 2 {
      SplitParts(raw, '.');
      assert raw == parts[0] + ['.'] + parts[1];
    }
    if payload, sig :| raw == payload + ['.'] + sig && Free(payload, '.') && Free(sig, '.') && !IsAscii(sig) {
      SplitJoined(payload, sig, '.');
    }
    hide Split, Free, IsAscii;
  }

  predicate CannotBeLookedUp(role: Data) { (role.List? && role.items != []) || (role.Object? && role.fields != []) }

  /** The fields cannot make a context: something that `tuple` does not take, or a role that cannot be
      looked up. */
  predicate Unbuildable(fs: seq<Field>) {
    || TupleOf(Get(fs, "assigned_account_ids", List([]))).None?
    || TupleOf(Get(fs, "compliance_clearance", List([]))).None?
    || CannotBeLookedUp(Get(fs, "user_role", Str([])))
  }

  lemma {:induction false} GetDefault(fs: seq<Field>, key: string, a: Data, b: Data)
    ensures Get(fs, key, a) == Get(fs, key, b) || (Get(fs, key, a) == a && Get(fs, key, b) == b)
  {
    if fs != [] {
      GetDefault(fs[1..], key, a, b);
    }
  }

  /** TypeError leaves `from_header` exactly in that case, and for a signed object with such fields. */
  lemma TypeErrorIff(raw: string, decode: Decoder, mac: Mac, env: Environ)
    ensures FromHeader(raw, decode, mac, env) == RaisesTypeError <==>
      || (exists payload, sig :: raw == payload + ['.'] + sig && Free(payload, '.') && Free(sig, '.') && !IsAscii(sig))
      || (exists payload, fs :: VerifyAndSplit(raw, mac, env) == Payload(payload)
            && decode(payload) == Some(Object(fs)) && Unbuildable(fs))
  {
    VerifyTypeErrorIff(raw, mac, env);
    forall fs ensures OfFields(fs) == RaisesTypeError <==> Unbuildable(fs) {
      UnbuildableIff(fs);
    }
    hide VerifyAndSplit, OfFields, Unbuildable, Free, IsAscii;
  }

  lemma UnbuildableIff(fs: seq<Field>)
    ensures OfFields(fs) == RaisesTypeError <==> Unbuildable(fs)
  {
    GetDefault(fs, "compliance_clearance", List([]), List([Str(Json.Codes("standard"))]));
    hide Get, Json.Codes;
  }

  /** One letter with an accent is enough. */
  lemma AccentRaisesTypeError(decode: Decoder, mac: Mac, env: Environ)
    ensures FromHeader("e30=.\U{e9}", decode, mac, env) == RaisesTypeError
  {
    var payload, sig := "e30=", "\U{e9}";
    assert payload + ['.'] + sig == "e30=.\U{e9}";
    assert sig[0] == '\U{e9}' && !IsAscii(sig);
    SplitJoined(payload, sig, '.');
    hide Split;
  }

  /** Whatever is accepted, by whatever decoder, has a clearance, and a known user role or one that
      counts as none. */
  lemma AcceptedIsValid(raw: string, decode: Decoder, mac: Mac, env: Environ)
    ensures FromHeader(raw, decode, mac, env).Accepted? ==>
      var c := FromHeader(raw, decode, mac, env).context;
      c.clearance != [] && (Falsy(c.userRole) || (c.userRole.Str? && IsUserRole(c.userRole.text)))
          && Constructed(c) == Built(c)
  {
    hide VerifyAndSplit, Get, TupleOf, Json.Codes;
  }

  /** The user role of an accepted context is no text exactly if the signed one counts as false in Python
      and is no text; then it is kept. */
  lemma RoleIsNoTextIff(fs: seq<Field>)
    requires OfFields(fs).Accepted?
    ensures var role := Get(fs, "user_role", Str([]));
      !OfFields(fs).context.userRole.Str? <==> Falsy(role) && !role.Str?
    ensures !OfFields(fs).context.userRole.Str? ==> OfFields(fs).context.userRole == Get(fs, "user_role", Str([]))
  {
  }

  /** For instance null. */
  lemma NullRoleIsKept()
    ensures OfFields([Field(Json.Codes("user_role"), Null)]).Accepted?
    ensures OfFields([Field(Json.Codes("user_role"), Null)]).context.userRole == Null
  {
  }

  // ---- What normalisation does -----------------------------------------------

  /** The three roles by name; an empty one is no role. */
  predicate NamedRole(d: Data) {
    d in {Str(Json.Codes("admin")), Str(Json.Codes("analyst")), Str(Json.Codes("viewer"))}
  }

  /** The role that a context has for the one it was given: that one if it is known or counts as none,
      otherwise none. Nothing gives a role that was not given. */
  function RoleOf(given: Data): Data {
    if NamedRole(given) || given in {Null, Bool(false), Str([]), List([]), Object([])} || (given.Number? && given.zero)
    then given else Str([])
  }

  function ClearanceOf(given: seq<Data>): seq<Data> { if given == [] then [Str(Json.Codes("standard"))] else given }

  /** A constructor call fails exactly for a role that cannot be looked up; otherwise clearance and role are
      these, and every other field is as it was given. */
  lemma ConstructedFields(c: AgentContext<Data>)
    ensures Constructed(c) == Unhashable <==> CannotBeLookedUp(c.userRole)
    ensures Constructed(c).Built? ==>
      Constructed(c).context == AgentContext(c.rmId, c.rmName, c.role, c.teamId, c.accounts,
                                             ClearanceOf(c.clearance), c.userEmail, RoleOf(c.userRole))
  {
    hide Json.Codes;
  }

  /** Likewise for the fields of a header, where those that are missing have their defaults. */
  lemma AcceptedFields(fs: seq<Field>)
    requires OfFields(fs).Accepted?
    ensures var c := OfFields(fs).context;
      && c.rmId == Get(fs, "rm_id", Str(Json.Codes("unknown"))) && c.rmName == Get(fs, "rm_name", Str([]))
      && c.role == Get(fs, "role", Str(Json.Codes("readonly"))) && c.teamId == Get(fs, "team_id", Str([]))
      && Some(c.accounts) == TupleOf(Get(fs, "assigned_account_ids", List([])))
      && (var signed := TupleOf(Get(fs, "compliance_clearance", List([])));
          signed.Some? && c.clearance == ClearanceOf(signed.value))
      && c.userEmail == Get(fs, "user_email", Str([])) && c.userRole == RoleOf(Get(fs, "user_role", Str([])))
  {
    GetDefault(fs, "compliance_clearance", List([]), List([Str(Json.Codes("standard"))]));
    hide Get, Json.Codes;
  }

  /** An unknown role gives none. */
  lemma UnknownRoleIsNone(c: AgentContext<Data>)
    requires c.userRole == Str(Json.Codes("editor"))
    ensures Constructed(c).Built? && Constructed(c).context.userRole == Str([])
  {
    CodesInjective("editor", "admin");
    CodesInjective("editor", "analyst");
    CodesInjective("editor", "viewer");
    assert |Json.Codes("editor")| == 6;
    ConstructedFields(c);
    hide Json.Codes, Constructed;
  }

  lemma {:induction false} GetMissing(fs: seq<Field>, key: string, otherwise: Data)
    requires forall i :: 0 <= i < |fs| ==> fs[i].key != Json.Codes(key)
    ensures Get(fs, key, otherwise) == otherwise
  {
    if fs != [] {
      GetMissing(fs[1..], key, otherwise);
    }
  }

  /** What `tuple` makes of each kind of value. */
  lemma TuplesAre(items: seq<Data>, text: PyText, fields: seq<Field>, i: nat)
    ensures TupleOf(List(items)) == Some(items)
    ensures TupleOf(Str(text)).Some? && |TupleOf(Str(text)).value| == |text|
    ensures i < |text| ==> TupleOf(Str(text)).value[i] == Str([text[i]])
    ensures TupleOf(Object(fields)).Some? && |TupleOf(Object(fields)).value| == |fields|
    ensures i < |fields| ==> TupleOf(Object(fields)).value[i] == Str(fields[i].key)
    ensures TupleOf(Null).None?
  {
  }

  /** The secret a header is signed with: the first that is configured, even if it is empty. */
  lemma SignedWith(c: AgentContext<PyText>, mac: Mac, env: Environ)
    ensures "CONTEXT_HMAC_SECRET" in env ==>
      ToHeader(c, mac, env) == PayloadOf(c) + ['.'] + mac(env["CONTEXT_HMAC_SECRET"], PayloadOf(c))
    ensures "CONTEXT_HMAC_SECRET" !in env && "JWT_SECRET" in env ==>
      ToHeader(c, mac, env) == PayloadOf(c) + ['.'] + mac(env["JWT_SECRET"], PayloadOf(c))
    ensures "CONTEXT_HMAC_SECRET" !in env && "JWT_SECRET" !in env ==>
      ToHeader(c, mac, env) == PayloadOf(c) + ['.'] + mac("dev-secret-change-in-prod", PayloadOf(c))
  {
    hide PayloadOf;
  }
}
