/**
 The typed read requests of EDO Lite: the payload validator, the builder of the wire target,
 and the separately written guard that checks a final target.
 Models src/wbcz/edo_lite.py, validate_edo_read_payload, build_edo_read_spec and
 is_allowed_edo_read_target.

 Which non-ASCII characters count as digits is a parameter: str.isdigit and the regular
 expression class \d disagree there.
 */
module EdoReads {
  import opened Common
  import opened Percent

  datatype JobType =
    | EDO_PARTICIPANT | EDO_OUTGOING_LIST | EDO_INCOMING_LIST
    | EDO_OUTGOING_CONTENT | EDO_INCOMING_CONTENT | EDO_OUTGOING_PRINT | EDO_INCOMING_PRINT
    | EDO_OUTGOING_LEGAL_ZIP | EDO_INCOMING_LEGAL_ZIP
    | EDO_OUTGOING_UNSIGNED_EVENTS | EDO_INCOMING_UNSIGNED_EVENTS | EDO_EVENT_CONTENT
    | EDO_OUTGOING_RECEIPT | EDO_INCOMING_RECEIPT | EDO_OUTGOING_MCHD | EDO_INCOMING_MCHD
    | EDO_GIS_PROCESSING | UNSUPPORTED

  datatype Value = Null | Bool(flag: bool) | Int(number: int) | Str(text: string) | OtherValue

  /** Field names; OtherKey stands for every name the module does not know. */
  datatype Key =
    | Limit | Offset | SortBy | Asc | CreatedFrom | CreatedTo | PartnerInn | PartnerId | StatusCode | TypeCode
    | Folder | ProductGroup | InnKey | DocumentId | EventId | ReceiptType | FileId | OtherKey(name: string)

  type Payload = map<Key, Value>

  datatype EdoError = UnsupportedJobType | PayloadNotObject | WrongFields | InvalidField(key: Key) | NotCanonical

  datatype Spec = Spec(job: JobType, httpMethod: string, target: string)

  /** str.isdigit, the class \d, and the value int() gives a \d character. */
  datatype Unicode = Unicode(isDigit: char -> bool, isDecimal: char -> bool, digitValue: char -> nat)

  ghost predicate Standard(u: Unicode) {
    forall c ::
      && ((c as int) < 128 ==> (u.isDigit(c) <==> '0' <= c <= '9') && (u.isDecimal(c) <==> '0' <= c <= '9'))
      && (u.isDecimal(c) ==> u.isDigit(c) && u.digitValue(c) < 10)
      && ('0' <= c <= '9' ==> u.digitValue(c) == c as int - 0x30)
  }

  predicate AllDigits(u: Unicode, s: string) {
    forall i :: 0 <= i < |s| ==> u.isDigit(s[i])
  }

  predicate AllDecimal(u: Unicode, s: string) {
    forall i :: 0 <= i < |s| ==> u.isDecimal(s[i])
  }

  // ---------- The validator ----------

  predicate OpaqueRemoteId(v: Value) {
    v.Str? && 1 <= |v.text| <= 2048 && '\0' !in v.text
  }

  predicate Inn(u: Unicode, v: Value) {
    v.Str? && AllDigits(u, v.text) && |v.text| in {10, 12}
  }

  predicate ShortString(v: Value, maxLen: nat) {
    v.Str? && 1 <= |v.text| <= maxLen
  }

  const KNOWN_EDO_RAW_STATUSES := {
    0, 1, 2, 3, 4, 5, 7, 8, 11, 12, 13, 14, 15, 16, 17, 18, 19, 41, 42, 43, 44, 61, 62, 63, 64, 65, 66}

  /** The optional list fields in the order the builder prints them. */
  const OPTIONAL_KEYS := [CreatedFrom, CreatedTo, PartnerInn, PartnerId, StatusCode, TypeCode, Folder, ProductGroup]

  predicate OptionalKey(key: Key) {
    key.CreatedFrom? || key.CreatedTo? || key.PartnerInn? || key.PartnerId? || key.StatusCode? || key.TypeCode?
    || key.Folder? || key.ProductGroup?
  }

  predicate IsListJob(job: JobType) {
    job in {EDO_OUTGOING_LIST, EDO_INCOMING_LIST}
  }

  predicate IsDocumentJob(job: JobType) {
    job in {EDO_OUTGOING_CONTENT, EDO_INCOMING_CONTENT, EDO_OUTGOING_PRINT, EDO_INCOMING_PRINT,
            EDO_OUTGOING_LEGAL_ZIP, EDO_INCOMING_LEGAL_ZIP, EDO_OUTGOING_MCHD, EDO_INCOMING_MCHD}
  }

  predicate OptionalOk(u: Unicode, key: Key, v: Value) {
    match key
    case CreatedFrom => v.Int? && v.number >= 0
    case CreatedTo => v.Int? && v.number >= 0
    case PartnerInn => Inn(u, v)
    case PartnerId => ShortString(v, 512)
    case StatusCode => v.Int? && v.number in KNOWN_EDO_RAW_STATUSES
    case TypeCode => v.Int? && v.number >= 0
    case Folder => v.Int? && 0 <= v.number <= 8
    case ProductGroup => v.Int? && v.number == 1
    case _ => false
  }

  function Get(root: Payload, key: Key, default: Value): Value {
    if key in root then root[key] else default
  }

  predicate GivenOk(u: Unicode, root: Payload, key: Key) {
    key in root && root[key] != Null ==> OptionalOk(u, key, root[key])
  }

  /** The first field the list validator objects to. */
  function BadListField(u: Unicode, root: Payload): Option<Key> {
    var limit, offset := Get(root, Limit, Int(10)), Get(root, Offset, Int(0));
    if !limit.Int? || limit.number < 1 then Some(Limit)
    else if !offset.Int? || offset.number < 0 then Some(Offset)
    else if !GivenOk(u, root, CreatedFrom) then Some(CreatedFrom)
    else if !GivenOk(u, root, CreatedTo) then Some(CreatedTo)
    else if !GivenOk(u, root, PartnerId) then Some(PartnerId)
    else if !GivenOk(u, root, PartnerInn) then Some(PartnerInn)
    else if !GivenOk(u, root, StatusCode) then Some(StatusCode)
    else if !GivenOk(u, root, TypeCode) then Some(TypeCode)
    else if !GivenOk(u, root, Folder) then Some(Folder)
    else if !Get(root, Asc, Bool(false)).Bool? then Some(Asc)
    else if !GivenOk(u, root, ProductGroup) then Some(ProductGroup)
    else None
  }

  predicate ListKey(key: Key) {
    OptionalKey(key) || key.Limit? || key.Offset? || key.Asc?
  }

  function CanonicalList(root: Payload): Payload {
    (map k | k in root && OptionalKey(k) && root[k] != Null :: root[k])
    + map[Limit := Get(root, Limit, Int(10)), Offset := Get(root, Offset, Int(0)), Asc := Get(root, Asc, Bool(false))]
  }

  function Validate(u: Unicode, job: JobType, payload: Option<Payload>): Result<Payload, EdoError> {
    if job == UNSUPPORTED then Err(UnsupportedJobType)
    else if payload.None? then Err(PayloadNotObject)
    else
      var root := payload.value;
      if job == EDO_PARTICIPANT then
        if root.Keys != {InnKey} then Err(WrongFields)
        else if !Inn(u, root[InnKey]) then Err(InvalidField(InnKey))
        else Ok(map[InnKey := root[InnKey]])
      else if IsListJob(job) then
        if exists k :: k in root && !ListKey(k) then Err(WrongFields)
        else
          var bad := BadListField(u, root);
          if bad.Some? then Err(InvalidField(bad.value)) else Ok(CanonicalList(root))
      else if IsDocumentJob(job) then
        if root.Keys != {DocumentId} then Err(WrongFields)
        else if !OpaqueRemoteId(root[DocumentId]) then Err(InvalidField(DocumentId))
        else Ok(map[DocumentId := root[DocumentId]])
      else if job in {EDO_OUTGOING_UNSIGNED_EVENTS, EDO_INCOMING_UNSIGNED_EVENTS} then
        if root != map[] then Err(WrongFields) else Ok(map[])
      else if job == EDO_EVENT_CONTENT then
        if root.Keys != {DocumentId, EventId} then Err(WrongFields)
        else if !OpaqueRemoteId(root[DocumentId]) then Err(InvalidField(DocumentId))
        else if !OpaqueRemoteId(root[EventId]) then Err(InvalidField(EventId))
        else Ok(map[DocumentId := root[DocumentId], EventId := root[EventId]])
      else if job in {EDO_OUTGOING_RECEIPT, EDO_INCOMING_RECEIPT} then
        if root.Keys != {DocumentId, ReceiptType} then Err(WrongFields)
        else if !OpaqueRemoteId(root[DocumentId]) then Err(InvalidField(DocumentId))
        else if !ShortString(root[ReceiptType], 128) then Err(InvalidField(ReceiptType))
        else Ok(map[DocumentId := root[DocumentId], ReceiptType := root[ReceiptType]])
      else
        if root.Keys != {FileId} then Err(WrongFields)
        else if !OpaqueRemoteId(root[FileId]) then Err(InvalidField(FileId))
        else Ok(map[FileId := root[FileId]])
  }

  /** The payloads the builder takes. */
  ghost predicate Canonical(u: Unicode, job: JobType, payload: Payload) {
    Validate(u, job, Some(payload)) == Ok(payload)
  }

  /** Validating what was validated changes nothing. */
  lemma ValidateIsIdempotent(u: Unicode, job: JobType, payload: Option<Payload>)
    requires Validate(u, job, payload).Ok?
    ensures Canonical(u, job, Validate(u, job, payload).value)
  {
    if IsListJob(job) {
      CanonicalListIsFixed(u, payload.value);
    }
  }

  /** What the list validator asks, without the order in which it asks. */
  ghost predicate ListFine(u: Unicode, root: Payload) {
    && Get(root, Limit, Int(10)).Int? && Get(root, Limit, Int(10)).number >= 1
    && Get(root, Offset, Int(0)).Int? && Get(root, Offset, Int(0)).number >= 0
    && Get(root, Asc, Bool(false)).Bool?
    && forall k :: OptionalKey(k) ==> GivenOk(u, root, k)
  }

  lemma NoBadFieldIffFine(u: Unicode, root: Payload)
    ensures BadListField(u, root).None? <==> ListFine(u, root)
  {
    hide GivenOk;
  }

  lemma CanonicalListIsFixed(u: Unicode, root: Payload)
    requires BadListField(u, root).None?
    ensures var c := CanonicalList(root);
            CanonicalList(c) == c && BadListField(u, c).None? && forall k :: k in c ==> ListKey(k)
  {
    hide OptionalOk, BadListField, GivenOk;
    var c := CanonicalList(root);
    NoBadFieldIffFine(u, root);
    forall k | OptionalKey(k) ensures GivenOk(u, c, k) {
      GivenStays(u, root, k);
    }
    assert ListFine(u, c);
    NoBadFieldIffFine(u, c);
    CanonicalTwice(root);
  }

  lemma GivenStays(u: Unicode, root: Payload, key: Key)
    requires GivenOk(u, root, key) && OptionalKey(key)
    ensures GivenOk(u, CanonicalList(root), key)
  {
    hide OptionalOk;
  }

  lemma CanonicalTwice(root: Payload)
    ensures CanonicalList(CanonicalList(root)) == CanonicalList(root)
  {
    var c := CanonicalList(root);
    var d := CanonicalList(c);
    assert forall k :: k in d <==> k in c;
    assert forall k :: k in c ==> d[k] == c[k];
  }

  // ---------- The builder ----------

  /** Where the parts of a target go; paths are lists of segments, each preceded by a slash. */
  datatype Shape =
    | InnShape(prefix: seq<string>)
    | ListShape(path: seq<string>)
    | IdShape(prefix: seq<string>, suffix: seq<string>)
    | TwoIdsShape(prefix: seq<string>, middle: seq<string>, suffix: seq<string>)
    | FixedShape(path: seq<string>)
    | FileShape(path: seq<string>)
    | NoShape

  function PathText(segments: seq<string>): string {
    if segments == [] then "" else "/" + segments[0] + PathText(segments[1..])
  }

  function Direction(job: JobType): string {
    if job in {EDO_OUTGOING_LIST, EDO_OUTGOING_CONTENT, EDO_OUTGOING_PRINT, EDO_OUTGOING_LEGAL_ZIP,
               EDO_OUTGOING_UNSIGNED_EVENTS, EDO_OUTGOING_RECEIPT, EDO_OUTGOING_MCHD} then "outgoing"
    else "incoming"
  }

  /** The path templates of build_edo_read_spec. */
  function BuilderShape(job: JobType): Shape {
    var documents := Direction(job) + "-documents";
    match job
    case EDO_PARTICIPANT => InnShape(["api", "v4", "true-api", "edo", "inn"])
    case EDO_OUTGOING_LIST => ListShape(["api", "v3", "true-api", "elk", documents])
    case EDO_INCOMING_LIST => ListShape(["api", "v3", "true-api", "elk", documents])
    case EDO_OUTGOING_CONTENT => IdShape(["elk", documents], ["content"])
    case EDO_INCOMING_CONTENT => IdShape(["elk", documents], ["content"])
    case EDO_OUTGOING_PRINT => IdShape(["api", "v3", "true-api", "edo", documents], ["print"])
    case EDO_INCOMING_PRINT => IdShape(["api", "v3", "true-api", "edo", documents], ["print"])
    case EDO_OUTGOING_LEGAL_ZIP => IdShape(["elk", documents], [])
    case EDO_INCOMING_LEGAL_ZIP => IdShape(["elk", documents], [])
    case EDO_OUTGOING_UNSIGNED_EVENTS => FixedShape(["api", "v3", "true-api", "edo", documents, "unsigned-events"])
    case EDO_INCOMING_UNSIGNED_EVENTS => FixedShape(["api", "v3", "true-api", "edo", documents, "unsigned-events"])
    case EDO_EVENT_CONTENT =>
      TwoIdsShape(["api", "v3", "true-api", "edo", "incoming-documents"], ["events"], ["content"])
    case EDO_OUTGOING_RECEIPT => TwoIdsShape(["api", "v3", "true-api", "edo", documents], ["events"], [])
    case EDO_INCOMING_RECEIPT => TwoIdsShape(["api", "v3", "true-api", "edo", documents], ["events"], [])
    case EDO_OUTGOING_MCHD => IdShape(["api", "v3", "true-api", "edo", documents], ["mchd-list"])
    case EDO_INCOMING_MCHD => IdShape(["api", "v3", "true-api", "edo", documents], ["mchd-list"])
    case EDO_GIS_PROCESSING => FileShape(["documents", "edo", "tpr", "ud"])
    case UNSUPPORTED => NoShape
  }

  /** The name of a field on the wire; the payload's file_id travels as fileId. */
  function KeyText(key: Key): string {
    match key
    case Limit => "limit" case Offset => "offset" case SortBy => "sortBy" case Asc => "asc"
    case CreatedFrom => "created_from" case CreatedTo => "created_to"
    case PartnerInn => "partner_inn" case PartnerId => "partner_id"
    case StatusCode => "status" case TypeCode => "type" case Folder => "folder" case ProductGroup => "product_group"
    case InnKey => "inn" case DocumentId => "document_id" case EventId => "event_id"
    case ReceiptType => "receipt_type" case FileId => "fileId"
    case OtherKey(name) => name
  }

  /** str of a payload value, as the builder prints it; asc is printed apart. */
  function ValueText(v: Value): string {
    match v
    case Int(n) => if n >= 0 then Decimal(n) else "-" + Decimal(-n)
    case Str(text) => text
    case Bool(flag) => if flag then "true" else "false"
    case Null => "None"
    case OtherValue => ""
  }

  type KeyedField = (Key, string)

  function OptionalFields(payload: Payload, keys: seq<Key>): seq<KeyedField> {
    if keys == [] then []
    else
      (if keys[0] in payload then [(keys[0], ValueText(payload[keys[0]]))] else [])
      + OptionalFields(payload, keys[1..])
  }

  function ListFields(payload: Payload): seq<KeyedField> {
    [(Limit, ValueText(Get(payload, Limit, Null))), (Offset, ValueText(Get(payload, Offset, Null))),
     (SortBy, "created_at"), (Asc, ValueText(Get(payload, Asc, Null)))]
    + OptionalFields(payload, OPTIONAL_KEYS)
  }

  function Named(fields: seq<KeyedField>): seq<Field> {
    seq(|fields|, i requires 0 <= i < |fields| => (KeyText(fields[i].0), fields[i].1))
  }

  function TextOf(payload: Payload, key: Key): string {
    ValueText(Get(payload, key, Null))
  }

  function SecondKey(job: JobType): Key {
    if job == EDO_EVENT_CONTENT then EventId else ReceiptType
  }

  function Target(job: JobType, payload: Payload): string {
    match BuilderShape(job)
    case InnShape(prefix) => PathText(prefix) + "/" + TextOf(payload, InnKey)
    case ListShape(path) => PathText(path) + "?" + UrlEncode(Named(ListFields(payload)))
    case IdShape(prefix, suffix) =>
      PathText(prefix) + "/" + Quote(TextOf(payload, DocumentId), false) + PathText(suffix)
    case TwoIdsShape(prefix, middle, suffix) =>
      PathText(prefix) + "/" + Quote(TextOf(payload, DocumentId), false)
      + (PathText(middle) + "/" + Quote(TextOf(payload, SecondKey(job)), false) + PathText(suffix))
    case FixedShape(path) => PathText(path)
    case FileShape(path) => PathText(path) + "?" + UrlEncode(Named([(FileId, TextOf(payload, FileId))]))
    case NoShape => ""
  }

  function Build(u: Unicode, job: JobType, payload: Payload): Result<Spec, EdoError> {
    match Validate(u, job, Some(payload))
    case Err(error) => Err(error)
    case Ok(canonical) =>
      if canonical != payload then Err(NotCanonical) else Ok(Spec(job, "GET", Target(job, payload)))
  }

  // ---------- The guard ----------

  /** The path patterns of is_allowed_edo_read_target. */
  function GuardShape(job: JobType): Shape {
    match job
    case EDO_PARTICIPANT => InnShape(["api", "v4", "true-api", "edo", "inn"])
    case EDO_OUTGOING_LIST => ListShape(["api", "v3", "true-api", "elk", "outgoing-documents"])
    case EDO_INCOMING_LIST => ListShape(["api", "v3", "true-api", "elk", "incoming-documents"])
    case EDO_OUTGOING_CONTENT => IdShape(["elk", "outgoing-documents"], ["content"])
    case EDO_INCOMING_CONTENT => IdShape(["elk", "incoming-documents"], ["content"])
    case EDO_OUTGOING_PRINT => IdShape(["api", "v3", "true-api", "edo", "outgoing-documents"], ["print"])
    case EDO_INCOMING_PRINT => IdShape(["api", "v3", "true-api", "edo", "incoming-documents"], ["print"])
    case EDO_OUTGOING_LEGAL_ZIP => IdShape(["elk", "outgoing-documents"], [])
    case EDO_INCOMING_LEGAL_ZIP => IdShape(["elk", "incoming-documents"], [])
    case EDO_OUTGOING_UNSIGNED_EVENTS =>
      FixedShape(["api", "v3", "true-api", "edo", "outgoing-documents", "unsigned-events"])
    case EDO_INCOMING_UNSIGNED_EVENTS =>
      FixedShape(["api", "v3", "true-api", "edo", "incoming-documents", "unsigned-events"])
    case EDO_EVENT_CONTENT =>
      TwoIdsShape(["api", "v3", "true-api", "edo", "incoming-documents"], ["events"], ["content"])
    case EDO_OUTGOING_RECEIPT => TwoIdsShape(["api", "v3", "true-api", "edo", "outgoing-documents"], ["events"], [])
    case EDO_INCOMING_RECEIPT => TwoIdsShape(["api", "v3", "true-api", "edo", "incoming-documents"], ["events"], [])
    case EDO_OUTGOING_MCHD => IdShape(["api", "v3", "true-api", "edo", "outgoing-documents"], ["mchd-list"])
    case EDO_INCOMING_MCHD => IdShape(["api", "v3", "true-api", "edo", "incoming-documents"], ["mchd-list"])
    case EDO_GIS_PROCESSING => FileShape(["documents", "edo", "tpr", "ud"])
    case UNSUPPORTED => NoShape
  }

  /** [^/?#]+ */
  ghost predicate SegmentText(s: string) {
    s != "" && Free(s, '/') && Free(s, '?') && Free(s, '#')
  }

  ghost predicate MatchesId(path: string, prefix: seq<string>, suffix: seq<string>) {
    exists id :: SegmentText(id) && path == PathText(prefix) + "/" + id + PathText(suffix)
  }

  ghost predicate MatchesTwoIds(path: string, prefix: seq<string>, middle: seq<string>, suffix: seq<string>) {
    exists first, second :: SegmentText(first) && SegmentText(second)
      && path == PathText(prefix) + "/" + first + (PathText(middle) + "/" + second + PathText(suffix))
  }

  predicate InnText(u: Unicode, text: string) {
    |text| in {10, 12} && AllDecimal(u, text)
  }

  ghost predicate MatchesInn(u: Unicode, path: string, prefix: seq<string>) {
    exists inn :: InnText(u, inn) && path == PathText(prefix) + "/" + inn
  }

  function KeyOf(name: string): Key {
    match name
    case "limit" => Limit
    case "offset" => Offset
    case "sortBy" => SortBy
    case "asc" => Asc
    case "created_from" => CreatedFrom
    case "created_to" => CreatedTo
    case "partner_inn" => PartnerInn
    case "partner_id" => PartnerId
    case "status" => StatusCode
    case "type" => TypeCode
    case "folder" => Folder
    case "product_group" => ProductGroup
    case "fileId" => FileId
    case _ => OtherKey(name)
  }

  function Keyed(fields: seq<Field>): (out: seq<KeyedField>)
    ensures |out| == |fields|
  {
    seq(|fields|, i requires 0 <= i < |fields| => (KeyOf(fields[i].0), fields[i].1))
  }

  /** The values of a name, in order: one entry of the dictionary parse_qs returns. */
  function Values(query: seq<KeyedField>, key: Key): seq<string> {
    if query == [] then []
    else (if query[0].0 == key then [query[0].1] else []) + Values(query[1..], key)
  }

  /** int() of a run of decimal characters. */
  function Number(u: Unicode, digits: string): nat {
    if digits == "" then 0
    else Number(u, digits[..|digits| - 1]) * 10 + u.digitValue(digits[|digits| - 1])
  }

  /** one_uint on a present value: -1 when it is not 0|[1-9]\d*. */
  function Uint(u: Unicode, raw: string): int {
    if raw == "0" then 0
    else if raw != "" && '1' <= raw[0] <= '9' && AllDecimal(u, raw[1..]) then Number(u, raw)
    else -1
  }

  predicate AllowedListKey(key: Key) {
    ListKey(key) || key == SortBy
  }

  /** The guard's test of one list field, when it is there. */
  predicate ListValueAllowed(u: Unicode, key: Key, raw: string) {
    match key
    case Limit => Uint(u, raw) >= 1
    case Offset => Uint(u, raw) >= 0
    case CreatedFrom => Uint(u, raw) >= 0
    case CreatedTo => Uint(u, raw) >= 0
    case PartnerInn => InnText(u, raw)
    case PartnerId => raw != ""
    case StatusCode => Uint(u, raw) in KNOWN_EDO_RAW_STATUSES
    case TypeCode => Uint(u, raw) >= 0
    case Folder => 0 <= Uint(u, raw) <= 8
    case ProductGroup => Uint(u, raw) == 1
    case SortBy => raw == "created_at"
    case Asc => raw in {"true", "false"}
    case _ => false
  }

  ghost predicate ListQueryAllowed(u: Unicode, query: seq<KeyedField>) {
    && (forall i :: 0 <= i < |query| ==> AllowedListKey(query[i].0) && |Values(query, query[i].0)| == 1)
    && (forall i :: 0 <= i < |query| ==> ListValueAllowed(u, query[i].0, Values(query, query[i].0)[0]))
    && Values(query, Limit) != [] && Values(query, Offset) != [] && Values(query, SortBy) != []
    && Values(query, Asc) != []
  }

  ghost predicate PathAndQueryAllowed(u: Unicode, job: JobType, path: string, query: seq<KeyedField>) {
    match GuardShape(job)
    case InnShape(prefix) => MatchesInn(u, path, prefix) && query == []
    case ListShape(expected) => path == PathText(expected) && ListQueryAllowed(u, query)
    case IdShape(prefix, suffix) => MatchesId(path, prefix, suffix) && query == []
    case TwoIdsShape(prefix, middle, suffix) => MatchesTwoIds(path, prefix, middle, suffix) && query == []
    case FixedShape(expected) => path == PathText(expected) && query == []
    case FileShape(expected) =>
      && path == PathText(expected)
      && |query| == 1 && query[0].0 == FileId && query[0].1 != ""
    case NoShape => false
  }

  /** urlsplit removes tabs wherever they stand. */
  function DropTabs(s: string): string {
    if s == "" then "" else (if s[0] == '\t' then "" else [s[0]]) + DropTabs(s[1..])
  }

  function Query(text: Option<string>): seq<KeyedField> {
    if text.Some? then Keyed(ReadQuery(text.value)) else []
  }

  /** urlsplit of a target that starts with a slash: path and query, or None when a host or a fragment is left over. */
  function UrlSplit(target: string): Option<(string, Option<string>)> {
    var text := DropTabs(target);
    if |text| >= 3 && text[1] == '/' && text[2] !in {'/', '?', '#'} then None
    else
      var (noFragment, fragment) := Partition(if |text| >= 2 && text[1] == '/' then text[2..] else text, '#');
      if fragment in {None, Some("")} then Some(Partition(noFragment, '?')) else None
  }

  ghost predicate NoScheme(target: string) {
    forall i :: 0 <= i < |target| - 2 ==> !(target[i] == ':' && target[i + 1] == '/' && target[i + 2] == '/')
  }

  ghost predicate Allowed(u: Unicode, spec: Spec) {
    && spec.job != UNSUPPORTED && spec.httpMethod == "GET"
    && NoScheme(spec.target) && Free(spec.target, '\r') && Free(spec.target, '\n')
    && spec.target != "" && spec.target[0] == '/'
    && var parts := UrlSplit(spec.target);
    parts.Some? && PathAndQueryAllowed(u, spec.job, parts.value.0, Query(parts.value.1))
  }

  // ---------- The audit labels ----------

  /** The audit endpoint build_edo_read_spec gives each job, in segments; those in braces stand for an id. */
  function AuditSegments(job: JobType): seq<string> {
    var documents := Direction(job) + "-documents";
    var elk, edo := ["elk", documents], ["api", "v3", "true-api", "edo", documents];
    match job
    case EDO_PARTICIPANT => ["api", "v4", "true-api", "edo", "inn", "{inn}"]
    case EDO_OUTGOING_LIST => ["api", "v3", "true-api"] + elk
    case EDO_INCOMING_LIST => ["api", "v3", "true-api"] + elk
    case EDO_OUTGOING_CONTENT => elk + ["{documentId}", "content"]
    case EDO_INCOMING_CONTENT => elk + ["{documentId}", "content"]
    case EDO_OUTGOING_PRINT => edo + ["{doc_id}", "print"]
    case EDO_INCOMING_PRINT => edo + ["{doc_id}", "print"]
    case EDO_OUTGOING_LEGAL_ZIP => elk + ["{documentId}"]
    case EDO_INCOMING_LEGAL_ZIP => elk + ["{documentId}"]
    case EDO_OUTGOING_UNSIGNED_EVENTS => edo + ["unsigned-events"]
    case EDO_INCOMING_UNSIGNED_EVENTS => edo + ["unsigned-events"]
    case EDO_EVENT_CONTENT => edo + ["{doc_id}", "events", "{event_id}", "content"]
    case EDO_OUTGOING_RECEIPT => edo + ["{doc_id}", "events", "{receiptType}"]
    case EDO_INCOMING_RECEIPT => edo + ["{doc_id}", "events", "{receiptType}"]
    case EDO_OUTGOING_MCHD => edo + ["{doc_id}", "mchd-list"]
    case EDO_INCOMING_MCHD => edo + ["{doc_id}", "mchd-list"]
    case EDO_GIS_PROCESSING => ["documents", "edo", "tpr", "ud"]
    case UNSUPPORTED => []
  }
}
