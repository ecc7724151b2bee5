/** The portable replay cursor: how it is made, written as an opaque token and read back. The JSON
    text and the checksum are parameters. */
module CursorCodec {

  import opened Records
  import Base64
  import Text

  const CURSOR_VERSION := 1
  const CURSOR_PREFIX := "hmc1"
  const MAX_CURSOR_TOKEN := 64 * 1024
  const MAX_CURSOR_FIELD := 512
  const MAX_CURSOR_EVENT_TYPES := 256
  const MAX_CURSOR_EVENT_TYPE_LEN := 128
  const DEFAULT_REPLAY_EVENT_TYPES: seq<string> := ["memory.created"]

  /** The field names of a payload and its scope, and any other. */
  datatype Key =
    | AnchorEventId | BaseSnapshotId | HistoryId | MountId | ReplicaId | ScopeKey | SeqKey | Version
    | EventTypes | Namespace | ScopeMode
    | Other(name: string)

  datatype Json =
    | Null
    | Bool(truth: bool)
    | Num(n: int)
    | Float(digits: string)
    | Str(s: string)
    | List(items: seq<Json>)
    | Obj(fields: map<Key, Json>)

  datatype Mode = Legacy | Explicit | Reconstructing

  function ModeName(m: Mode): string {
    match m
    case Legacy => "legacy"
    case Explicit => "explicit"
    case Reconstructing => "reconstructing"
  }

  datatype Cursor = Cursor(
    mount: string,
    replica: string,
    history: string,
    position: nat,
    anchor: string,
    base: string,
    namespace: Option<string>,
    eventTypes: seq<string>,
    mode: Mode)

  datatype CursorError = Malformed | WrongVersion | Unanchored

  // ---------- event types ----------

  /** The entries stripped and without repetitions, or nothing if one is not a non-empty string. */
  function Cleaned(items: seq<Json>): Option<seq<string>> {
    if items == [] then Some([])
    else
      var before, item := Cleaned(items[..|items| - 1]), items[|items| - 1];
      if before.None? || !item.Str? || Text.Strip(item.s) == "" then None
      else if Text.Strip(item.s) in before.value then before
      else Some(before.value + [Text.Strip(item.s)])
  }

  function NormalizeEventTypes(types: Json): Result<seq<string>, CursorError> {
    if types.Null? then Ok(DEFAULT_REPLAY_EVENT_TYPES)
    else if !types.List? then Err(Malformed)
    else
      var cleaned := Cleaned(types.items);
      if cleaned.None? || cleaned.value == [] then Err(Malformed) else Ok(Text.Sort(cleaned.value))
  }

  /** Sorted, without repetitions, each trimmed and not empty. */
  ghost predicate Normal(types: seq<string>) {
    types != [] && Text.Ascending(types) && forall t :: t in types ==> t != "" && Text.Trimmed(t)
  }

  lemma {:induction false} CleanedIs(items: seq<Json>)
    ensures Cleaned(items).Some? ==> Tidy(Cleaned(items).value)
  {
    if items != [] {
      CleanedIs(items[..|items| - 1]);
      var item := items[|items| - 1];
      if item.Str? { Text.StripTrims(item.s); }
    }
  }

  function Strings(types: seq<string>): (items: seq<Json>)
    ensures |items| == |types| && forall i :: 0 <= i < |types| ==> items[i] == Str(types[i])
  {
    seq(|types|, i requires 0 <= i < |types| => Str(types[i]))
  }

  lemma CleanedSnoc(before: seq<string>, t: string)
    requires Cleaned(Strings(before)) == Some(before) && t !in before && t != "" && Text.Trimmed(t)
    ensures Cleaned(Strings(before + [t])) == Some(before + [t])
  {
    assert Strings(before + [t])[..|before|] == Strings(before);
    Text.TrimmedStays(t);
  }

  ghost predicate Tidy(types: seq<string>) {
    Text.NoRepeats(types) && forall t :: t in types ==> t != "" && Text.Trimmed(t)
  }

  lemma TidyPrefix(types: seq<string>, m: nat)
    requires Tidy(types) && m < |types|
    ensures Tidy(types[..m]) && types[m] !in types[..m] && types[..m + 1] == types[..m] + [types[m]]
    ensures types[m] != "" && Text.Trimmed(types[m])
  {
    assert types[m] in types;
    forall i | 0 <= i < m ensures types[..m][i] == types[i] {}
    forall t | t in types[..m] ensures t in types {}
  }

  lemma {:induction false} CleanedStays(types: seq<string>)
    requires Tidy(types)
    ensures Cleaned(Strings(types)) == Some(types)
  {
    if types != [] {
      var m := |types| - 1;
      TidyPrefix(types, m);
      CleanedStays(types[..m]);
      CleanedSnoc(types[..m], types[m]);
      assert types == types[..m + 1];
    }
  }

  lemma NormalizedIsNormal(types: Json)
    ensures NormalizeEventTypes(types).Ok? ==> Normal(NormalizeEventTypes(types).value)
  {
    if types.List? && Cleaned(types.items).Some? {
      var cleaned := Cleaned(types.items).value;
      CleanedIs(types.items);
      Text.SortAscends(cleaned);
      Text.SortIs(cleaned, "");
      forall t | t in Text.Sort(cleaned) ensures t != "" && Text.Trimmed(t) {
        Text.SortIs(cleaned, t);
      }
    } else if types.Null? {
      assert Text.Trimmed("memory.created");
    }
  }

  lemma NormalStays(types: seq<string>)
    requires Normal(types)
    ensures NormalizeEventTypes(List(Strings(types))) == Ok(types)
  {
    Text.AscendingHasNoRepeats(types);
    CleanedStays(types);
    Text.SortKeepsAscending(types);
  }

  // ---------- making a cursor ----------

  predicate Blank(j: Json) {
    !j.Str? || Text.Strip(j.s) == ""
  }

  predicate Fits(j: Json) {
    j.Str? && |j.s| <= MAX_CURSOR_FIELD
  }

  function NamespaceOf(j: Json): Result<Option<string>, CursorError> {
    if j.Null? then Ok(None) else if j.Str? then Ok(Some(j.s)) else Err(Malformed)
  }

  function ModeOf(j: Json): Option<Mode> {
    if j == Str("legacy") then Some(Legacy)
    else if j == Str("explicit") then Some(Explicit)
    else if j == Str("reconstructing") then Some(Reconstructing)
    else None
  }

  predicate TypesFit(types: seq<string>) {
    |types| <= MAX_CURSOR_EVENT_TYPES && forall i :: 0 <= i < |types| ==> |types[i]| <= MAX_CURSOR_EVENT_TYPE_LEN
  }

  /** The first check that the fields of a new cursor fail, if any. */
  function FieldsError(version: Json, mount: Json, replica: Json, history: Json, position: Json, anchor: Json,
                       base: Json): Option<CursorError>
  {
    if !version.Num? then Some(Malformed)
    else if version.n != CURSOR_VERSION then Some(WrongVersion)
    else if Blank(mount) || Blank(replica) || Blank(history) then Some(Unanchored)
    else if !position.Num? || position.n < 0 then Some(Malformed)
    else if !anchor.Str? then Some(Malformed)
    else if position.n == 0 && anchor.s != "" then Some(Malformed)
    else if position.n > 0 && Blank(anchor) then Some(Unanchored)
    else if !base.Str? then Some(Malformed)
    else if !Fits(mount) || !Fits(replica) || !Fits(history) || !Fits(anchor) || !Fits(base) then Some(Malformed)
    else None
  }

  datatype Scope = Scope(namespace: Option<string>, eventTypes: seq<string>, mode: Mode)

  function ScopeOf(namespace: Json, types: Json, mode: Json): Result<Scope, CursorError> {
    var ns, norm := NamespaceOf(namespace), NormalizeEventTypes(types);
    if ns.Err? then Err(ns.error)
    else if norm.Err? then Err(norm.error)
    else if !TypesFit(norm.value) then Err(Malformed)
    else if ns.value.Some? && |ns.value.value| > MAX_CURSOR_FIELD then Err(Malformed)
    else if ModeOf(mode).None? then Err(Malformed)
    else Ok(Scope(ns.value, norm.value, ModeOf(mode).value))
  }

  /** The checks of a new cursor, in their order. */
  function Make(version: Json, mount: Json, replica: Json, history: Json, position: Json, anchor: Json, base: Json,
                namespace: Json, types: Json, mode: Json): Result<Cursor, CursorError>
  {
    var fault := FieldsError(version, mount, replica, history, position, anchor, base);
    if fault.Some? then Err(fault.value)
    else
      var scope := ScopeOf(namespace, types, mode);
      if scope.Err? then Err(scope.error)
      else Ok(Cursor(mount.s, replica.s, history.s, position.n, anchor.s, base.s,
                     scope.value.namespace, scope.value.eventTypes, scope.value.mode))
  }

  // ---------- the token ----------

  function NamespaceJson(ns: Option<string>): Json {
    if ns.None? then Null else Str(ns.value)
  }

  /** The legacy mode is left out. */
  function ScopeJson(c: Cursor): Json {
    var scope := map[EventTypes := List(Strings(c.eventTypes)), Namespace := NamespaceJson(c.namespace)];
    Obj(if c.mode.Legacy? then scope else scope[ScopeMode := Str(ModeName(c.mode))])
  }

  function PayloadJson(c: Cursor): Json {
    Obj(map[AnchorEventId := Str(c.anchor), BaseSnapshotId := Str(c.base), HistoryId := Str(c.history),
            MountId := Str(c.mount), ReplicaId := Str(c.replica), ScopeKey := ScopeJson(c), SeqKey := Num(c.position),
            Version := Num(CURSOR_VERSION)])
  }

  /** Writing and reading JSON, and the checksum. */
  datatype Codec = Codec(dumps: Json -> seq<Base64.Byte>, loads: seq<Base64.Byte> -> Option<Json>, sha: string -> string)

  predicate Hex(c: char) {
    '0' <= c <= '9' || 'a' <= c <= 'f'
  }

  /** What is relied on for a cursor: the JSON text of its payload is read back as it was written, and
      digests are hexadecimal. */
  ghost predicate Sound(k: Codec, c: Cursor) {
    var text := k.dumps(PayloadJson(c));
    text != [] && k.loads(text) == Some(PayloadJson(c)) &&
    forall s :: k.sha(s) != "" && forall i :: 0 <= i < |k.sha(s)| ==> Hex(k.sha(s)[i])
  }

  function Signed(prefix: string, payload: string, k: Codec): string {
    k.sha(prefix + "." + payload)
  }

  function Encode(c: Cursor, k: Codec): string {
    var payload := Base64.Unpad(Base64.Encode(k.dumps(PayloadJson(c))));
    CURSOR_PREFIX + ['.'] + (payload + ['.'] + Signed(CURSOR_PREFIX, payload, k))
  }

  function StripSigns(s: string): string {
    if s != "" && (s[0] == '-' || s[0] == '+') then StripSigns(s[1..]) else s
  }

  predicate IsDigits(s: string) {
    s != "" && forall i :: 0 <= i < |s| ==> '0' <= s[i] <= '9'
  }

  function Get(fields: map<Key, Json>, key: Key, default: Json): Json {
    if key in fields then fields[key] else default
  }

  function FromPayload(data: Json): Result<Cursor, CursorError> {
    if !data.Obj? || Version !in data.fields || !data.fields[Version].Num? then Err(Malformed)
    else if data.fields[Version].n != CURSOR_VERSION then Err(WrongVersion)
    else
      var scope := Get(data.fields, ScopeKey, Null);
      if !scope.Obj? || EventTypes !in scope.fields then Err(Malformed)
      else
        var d := data.fields;
        Make(d[Version], Get(d, MountId, Str("")), Get(d, ReplicaId, Str("")), Get(d, HistoryId, Str("")),
             Get(d, SeqKey, Num(-1)), Get(d, AnchorEventId, Str("")), Get(d, BaseSnapshotId, Str("")),
             Get(scope.fields, Namespace, Null), scope.fields[EventTypes],
             Get(scope.fields, ScopeMode, Str("legacy")))
  }

  function FromParts(parts: seq<string>, k: Codec): Result<Cursor, CursorError>
    requires parts != []
  {
    var prefix := parts[0];
    if |prefix| >= 3 && prefix[..3] == "hmc" && prefix != CURSOR_PREFIX then Err(WrongVersion)
    else if |parts| != 3 || prefix != CURSOR_PREFIX || parts[1] == "" || parts[2] == "" then Err(Malformed)
    else if parts[2] != Signed(prefix, parts[1], k) then Err(Malformed)
    else
      var bytes := Base64.Decode(Base64.Pad(parts[1]));
      if bytes.Malformed? then Err(Malformed)
      else
        var data := k.loads(bytes.data);
        if data.None? then Err(Malformed) else FromPayload(data.value)
  }

  function Decode(raw: string, k: Codec): Result<Cursor, CursorError> {
    var token := Text.Strip(raw);
    if |token| > MAX_CURSOR_TOKEN then Err(Malformed)
    else if token == "" || IsDigits(StripSigns(token)) then Err(Unanchored)
    else FromParts(Text.Split(token, '.'), k)
  }

  // ---------- the round trip ----------

  /** What making a cursor establishes. */
  ghost predicate Made(c: Cursor) {
    Make(Num(CURSOR_VERSION), Str(c.mount), Str(c.replica), Str(c.history), Num(c.position), Str(c.anchor), Str(c.base),
         NamespaceJson(c.namespace), List(Strings(c.eventTypes)), Str(ModeName(c.mode))) == Ok(c)
  }

  /** Making a cursor again from its own fields gives the same cursor: normalization is idempotent. */
  lemma MakeIsIdempotent(version: Json, mount: Json, replica: Json, history: Json, position: Json, anchor: Json, base: Json,
                         namespace: Json, types: Json, mode: Json)
    ensures var r := Make(version, mount, replica, history, position, anchor, base, namespace, types, mode);
            r.Ok? ==> Made(r.value)
  {
    ScopeStays(namespace, types, mode);
  }

  lemma ScopeStays(namespace: Json, types: Json, mode: Json)
    ensures var r := ScopeOf(namespace, types, mode);
            r.Ok? ==>
              ScopeOf(NamespaceJson(r.value.namespace), List(Strings(r.value.eventTypes)), Str(ModeName(r.value.mode))) == r
  {
    NormalizedIsNormal(types);
    var norm := NormalizeEventTypes(types);
    var ns, m := NamespaceOf(namespace), ModeOf(mode);
    if norm.Ok? && ns.Ok? && m.Some? {
      NormalStays(norm.value);
      NamespaceStays(ns.value);
      ModeStays(m.value);
    }
  }

  lemma NamespaceStays(ns: Option<string>)
    ensures NamespaceOf(NamespaceJson(ns)) == Ok(ns)
  {
  }

  lemma ModeStays(m: Mode)
    ensures ModeOf(Str(ModeName(m))) == Some(m)
  {
  }

  /** What the reader finds in a payload. */
  ghost predicate ScopeReads(scope: map<Key, Json>, c: Cursor) {
    EventTypes in scope && scope[EventTypes] == List(Strings(c.eventTypes)) &&
    Get(scope, Namespace, Null) == NamespaceJson(c.namespace) &&
    Get(scope, ScopeMode, Str("legacy")) == Str(ModeName(c.mode))
  }

  ghost predicate FieldsRead(d: map<Key, Json>, c: Cursor) {
    Version in d && d[Version] == Num(CURSOR_VERSION) && Get(d, ScopeKey, Null) == ScopeJson(c) &&
    Get(d, MountId, Str("")) == Str(c.mount) && Get(d, ReplicaId, Str("")) == Str(c.replica) &&
    Get(d, HistoryId, Str("")) == Str(c.history) && Get(d, SeqKey, Num(-1)) == Num(c.position) &&
    Get(d, AnchorEventId, Str("")) == Str(c.anchor) && Get(d, BaseSnapshotId, Str("")) == Str(c.base)
  }

  lemma WhatIsWrittenIsRead(c: Cursor)
    ensures FieldsRead(PayloadJson(c).fields, c) && ScopeReads(ScopeJson(c).fields, c)
  {
  }

  lemma PayloadComesBack(c: Cursor)
    requires Made(c)
    ensures FromPayload(PayloadJson(c)) == Ok(c)
  {
    WhatIsWrittenIsRead(c);
    FromFields(PayloadJson(c).fields, c, ScopeJson(c));
  }

  lemma FromFields(d: map<Key, Json>, c: Cursor, scope: Json)
    requires scope == ScopeJson(c) && FieldsRead(d, c) && ScopeReads(scope.fields, c) && Made(c)
    ensures FromPayload(Obj(d)) == Ok(c)
  {
  }

  lemma TokenSplits(payload: string, digest: string)
    requires '.' !in payload && '.' !in digest
    ensures Text.Split(CURSOR_PREFIX + ['.'] + (payload + ['.'] + digest), '.') == [CURSOR_PREFIX, payload, digest]
  {
    Text.SplitJoined(CURSOR_PREFIX, '.', payload + ['.'] + digest);
    Text.SplitJoined(payload, '.', digest);
    Text.SplitWhole(digest, '.');
  }

  lemma TokenIsTrimmed(payload: string, digest: string)
    requires digest != "" && Hex(digest[|digest| - 1])
    ensures var token := CURSOR_PREFIX + ['.'] + (payload + ['.'] + digest);
            Text.Strip(token) == token && token != "" && !IsDigits(StripSigns(token))
  {
    var token := CURSOR_PREFIX + ['.'] + (payload + ['.'] + digest);
    assert token[0] == 'h' && token[|token| - 1] == digest[|digest| - 1];
    Text.TrimmedStays(token);
  }

  /** A cursor that could be made is read back from its token exactly when the token is not over the
      size limit. */
  lemma RoundTripExactlyWithinLimit(c: Cursor, k: Codec)
    requires Sound(k, c) && Made(c)
    ensures Decode(Encode(c, k), k) == Ok(c) <==> |Encode(c, k)| <= MAX_CURSOR_TOKEN
  {
    TokenDecodes(c, k);
    PayloadDecodes(c, k);
  }

  function PartsOf(c: Cursor, k: Codec): (parts: seq<string>)
    ensures |parts| == 3
  {
    [CURSOR_PREFIX, PayloadOf(c, k), Signed(CURSOR_PREFIX, PayloadOf(c, k), k)]
  }

  lemma TokenDecodes(c: Cursor, k: Codec)
    requires Sound(k, c)
    ensures var token := Encode(c, k);
            Decode(token, k) == if |token| > MAX_CURSOR_TOKEN then Err(Malformed) else FromParts(PartsOf(c, k), k)
  {
    TokenIs(c, k);
    DecodeIs(Encode(c, k), PartsOf(c, k), k);
  }

  lemma PayloadIs(c: Cursor, k: Codec)
    requires Sound(k, c)
    ensures var payload := PayloadOf(c, k);
            payload != "" && Base64.AllInAlphabet(payload) &&
            Base64.Decode(Base64.Pad(payload)) == Base64.Plain(k.dumps(PayloadJson(c)))
  {
    Base64.UnpaddedIs(k.dumps(PayloadJson(c)));
    Base64.UnpaddedRoundTrip(k.dumps(PayloadJson(c)));
  }

  lemma PayloadDecodes(c: Cursor, k: Codec)
    requires Sound(k, c) && Made(c)
    ensures FromParts(PartsOf(c, k), k) == Ok(c)
  {
    PayloadIs(c, k);
    PartsComeBack(c, k.dumps(PayloadJson(c)), PartsOf(c, k), k);
  }

  lemma DecodeIs(token: string, parts: seq<string>, k: Codec)
    requires Text.Strip(token) == token && token != "" && !IsDigits(StripSigns(token))
    requires Text.Split(token, '.') == parts
    ensures Decode(token, k) == if |token| > MAX_CURSOR_TOKEN then Err(Malformed) else FromParts(parts, k)
  {
  }

  /** A cursor with a JSON text of 48 KiB can be written but not read back. */
  lemma LongCursorsAreRefused(c: Cursor, k: Codec)
    requires Sound(k, c) && Made(c) && |k.dumps(PayloadJson(c))| >= 48 * 1024
    ensures Decode(Encode(c, k), k) == Err(Malformed)
  {
    TokenDecodes(c, k);
    Base64.UnpaddedIs(k.dumps(PayloadJson(c)));
    Base64.SextetsAreMore(k.dumps(PayloadJson(c)));
    assert |PayloadOf(c, k)| >= MAX_CURSOR_TOKEN;
  }

  // ---------- a cursor within the field limits that is over the token limit ----------

  predicate Ascii(c: char) {
    c < '\U{80}'
  }

  /** How many characters of a text are not ASCII. */
  function Escaped(s: string): nat {
    if s == "" then 0 else Escaped(s[1..]) + if Ascii(s[0]) then 0 else 1
  }

  function EscapedIn(types: seq<string>): nat {
    if types == [] then 0 else Escaped(types[0]) + EscapedIn(types[1..])
  }

  /** JSON text in ASCII spends at least the six bytes of an escape on any other character. */
  predicate WritesEscapes(k: Codec, c: Cursor) {
    |k.dumps(PayloadJson(c))| >= 6 * EscapedIn(c.eventTypes)
  }

  /** The `i`-th of 256 long event types outside ASCII. */
  function LongType(i: nat): (t: string)
    requires i < 256
    ensures |t| == 128 && forall j :: 0 <= j < 128 ==> '\U{4E00}' <= t[j] <= '\U{4EFF}'
  {
    [(0x4E00 + i) as char] + seq(127, j => '\U{4E00}')
  }

  function LongTypes(): (types: seq<string>)
    ensures |types| == 256 && forall i :: 0 <= i < 256 ==> types[i] == LongType(i)
  {
    seq(256, i requires 0 <= i < 256 => LongType(i))
  }

  function LongCursor(): Cursor {
    Cursor("mount", "replica", "history", 0, "", "", None, LongTypes(), Explicit)
  }

  lemma LongTypesAreNormal()
    ensures Normal(LongTypes())
  {
    var types := LongTypes();
    forall i, j | 0 <= i < j < |types| ensures Text.StringLess(types[i], types[j]) {
      assert types[i][0] < types[j][0];
    }
    forall t | t in types ensures t != "" && Text.Trimmed(t) {
      var i :| 0 <= i < 256 && t == types[i];
    }
  }

  lemma LongCursorIsMade()
    ensures Made(LongCursor())
  {
    LongTypesAreNormal();
    NormalStays(LongTypes());
    Text.TrimmedStays("mount");
    Text.TrimmedStays("replica");
    Text.TrimmedStays("history");
    NamespaceStays(None);
    ModeStays(Explicit);
  }

  lemma {:induction false} AllEscaped(s: string)
    requires forall i :: 0 <= i < |s| ==> !Ascii(s[i])
    ensures Escaped(s) == |s|
  {
    if s != "" { AllEscaped(s[1..]); }
  }

  lemma {:induction false} AllEscapedIn(types: seq<string>)
    requires forall t <- types :: |t| == 128 && forall i :: 0 <= i < |t| ==> !Ascii(t[i])
    ensures EscapedIn(types) == 128 * |types|
  {
    if types != [] {
      AllEscaped(types[0]);
      AllEscapedIn(types[1..]);
    }
  }

  lemma LongTypesAreEscaped()
    ensures EscapedIn(LongTypes()) == 128 * 256
  {
    forall t | t in LongTypes() ensures |t| == 128 && forall i :: 0 <= i < |t| ==> !Ascii(t[i]) {
      var i :| 0 <= i < 256 && t == LongTypes()[i];
    }
    AllEscapedIn(LongTypes());
  }

  /** The field limits do not imply the token limit: a cursor with 256 event types of 128 characters
      outside ASCII can be made and written, and is refused when it is read back. */
  lemma LongCursorIsRefused(k: Codec)
    requires Sound(k, LongCursor()) && WritesEscapes(k, LongCursor())
    ensures Made(LongCursor()) && Decode(Encode(LongCursor(), k), k) == Err(Malformed)
  {
    LongCursorIsMade();
    LongTypesAreEscaped();
    LongIsRefused(LongCursor(), k);
  }

  lemma LongIsRefused(c: Cursor, k: Codec)
    requires Sound(k, c) && Made(c) && WritesEscapes(k, c) && EscapedIn(c.eventTypes) == 128 * 256
    ensures Decode(Encode(c, k), k) == Err(Malformed)
  {
    LongCursorsAreRefused(c, k);
  }

  function PayloadOf(c: Cursor, k: Codec): string {
    Base64.Unpad(Base64.Encode(k.dumps(PayloadJson(c))))
  }

  lemma NoDots(payload: string, digest: string)
    requires Base64.AllInAlphabet(payload) && forall i :: 0 <= i < |digest| ==> Hex(digest[i])
    ensures '.' !in payload && '.' !in digest
  {
  }

  lemma TokenIs(c: Cursor, k: Codec)
    requires Sound(k, c)
    ensures var token, payload := Encode(c, k), PayloadOf(c, k);
            Text.Strip(token) == token && token != "" && !IsDigits(StripSigns(token)) && payload != "" &&
            Text.Split(token, '.') == PartsOf(c, k) &&
            Base64.Decode(Base64.Pad(payload)) == Base64.Plain(k.dumps(PayloadJson(c)))
  {
    var payload := PayloadOf(c, k);
    var digest := Signed(CURSOR_PREFIX, payload, k);
    PayloadIs(c, k);
    NoDots(payload, digest);
    TokenIsTrimmed(payload, digest);
    TokenSplits(payload, digest);
  }

  lemma PartsComeBack(c: Cursor, bytes: seq<Base64.Byte>, parts: seq<string>, k: Codec)
    requires Made(c) && k.loads(bytes) == Some(PayloadJson(c))
    requires |parts| == 3 && parts[0] == CURSOR_PREFIX && parts[1] != "" && parts[2] != ""
    requires parts[2] == Signed(CURSOR_PREFIX, parts[1], k)
    requires Base64.Decode(Base64.Pad(parts[1])) == Base64.Plain(bytes)
    ensures FromParts(parts, k) == Ok(c)
  {
    PayloadComesBack(c);
  }

  /** Distinct cursors have distinct tokens. */
  lemma TokensIdentifyCursors(c: Cursor, d: Cursor, k: Codec)
    requires Sound(k, c) && Sound(k, d) && Made(c) && Made(d) && Encode(c, k) == Encode(d, k)
    ensures c == d
  {
    TokenIs(c, k);
    TokenIs(d, k);
    assert PayloadOf(c, k) == Text.Split(Encode(c, k), '.')[1] == PayloadOf(d, k);
    PayloadComesBack(c);
    PayloadComesBack(d);
  }
}
