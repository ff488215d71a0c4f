/**
 Laws of the typed read requests: the guard accepts what the builder prints, and the target
 can be read back.
 Models src/wbcz/edo_lite.py, build_edo_read_spec against is_allowed_edo_read_target.
 */
module EdoReadLaws {
  import opened Common
  import opened Percent
  import opened EdoReads

  // ---------- Characters of a built target ----------

  /** Nothing the guard or urlsplit stumbles over. */
  predicate SafeChar(c: char) {
    c != ':' && c != '#' && c != '\t' && c != '\r' && c != '\n'
  }

  predicate Safe(s: string) {
    forall i :: 0 <= i < |s| ==> SafeChar(s[i])
  }

  /** A path segment: safe, and neither empty nor holding a separator. */
  predicate SafeSegment(s: string) {
    s != "" && forall i :: 0 <= i < |s| ==> SafeChar(s[i]) && s[i] != '/' && s[i] != '?'
  }

  predicate SafeSegments(segments: seq<string>) {
    forall i :: 0 <= i < |segments| ==> SafeSegment(segments[i])
  }

  predicate SafeShape(shape: Shape) {
    match shape
    case InnShape(prefix) => prefix != [] && SafeSegments(prefix)
    case ListShape(path) => path != [] && SafeSegments(path)
    case IdShape(prefix, suffix) => prefix != [] && SafeSegments(prefix) && SafeSegments(suffix)
    case TwoIdsShape(prefix, middle, suffix) =>
      prefix != [] && middle != [] && SafeSegments(prefix) && SafeSegments(middle) && SafeSegments(suffix)
    case FixedShape(path) => path != [] && SafeSegments(path)
    case FileShape(path) => path != [] && SafeSegments(path)
    case NoShape => true
  }

  lemma DirectionSegments()
    ensures "outgoing" + "-documents" == "outgoing-documents" && "incoming" + "-documents" == "incoming-documents"
    ensures SafeSegment("outgoing-documents") && SafeSegment("incoming-documents")
  {
  }

  lemma LongSegments()
    ensures SafeSegment("unsigned-events") && SafeSegment("documents") && SafeSegment("true-api")
  {
  }

  lemma ShortSegments()
    ensures SafeSegment("api") && SafeSegment("v3") && SafeSegment("v4") && SafeSegment("edo") && SafeSegment("elk")
    ensures SafeSegment("inn") && SafeSegment("tpr") && SafeSegment("ud")
  {
  }

  lemma EndSegments()
    ensures SafeSegment("content") && SafeSegment("print") && SafeSegment("events") && SafeSegment("mchd-list")
  {
  }

  /** The builder's templates and the guard's patterns, written apart, are the same. */
  lemma ShapesAgree(job: JobType)
    ensures BuilderShape(job) == GuardShape(job)
  {
    hide SafeSegment;
    DirectionSegments();
  }

  lemma ShapesAreSafe(job: JobType)
    ensures SafeShape(GuardShape(job))
  {
    hide SafeSegment;
    DirectionSegments();
    LongSegments();
    ShortSegments();
    EndSegments();
  }

  lemma {:induction false} PathTextIsSafe(segments: seq<string>)
    requires SafeSegments(segments)
    ensures Safe(PathText(segments)) && Free(PathText(segments), '?')
    ensures segments != [] ==> |PathText(segments)| >= 2 && PathText(segments)[0] == '/' && PathText(segments)[1] != '/'
  {
    if segments != [] {
      PathTextIsSafe(segments[1..]);
    }
  }

  lemma {:induction false} SafeHasNoTabs(s: string)
    requires Safe(s)
    ensures DropTabs(s) == s
  {
    if s != "" {
      assert SafeChar(s[0]);
      SafeHasNoTabs(s[1..]);
      assert s == [s[0]] + s[1..];
    }
  }

  /** How the guard takes apart a target made of a path and, after a question mark, a query. */
  lemma GuardReadsTarget(u: Unicode, job: JobType, path: string, query: Option<string>)
    requires job != UNSUPPORTED
    requires Safe(path) && Free(path, '?') && |path| >= 2 && path[0] == '/' && path[1] != '/'
    requires query.Some? ==> Safe(query.value)
    ensures Allowed(u, Spec(job, "GET", path + if query.Some? then "?" + query.value else ""))
            <==> PathAndQueryAllowed(u, job, path, Query(query))
  {
    hide PathAndQueryAllowed;
    var target := path + if query.Some? then "?" + query.value else "";
    assert Safe(target);
    SafeHasNoTabs(target);
    PartitionNone(target, '#');
    if query.Some? {
      assert target == path + ['?'] + query.value;
      PartitionAt(path, '?', query.value);
    } else {
      assert target == path;
      PartitionNone(path, '?');
    }
  }

  // ---------- What a canonical payload prints ----------

  lemma WireIsSafe(s: string)
    requires AllWire(s)
    ensures Safe(s) && Free(s, '/') && Free(s, '?') && Free(s, '#')
  {
    assert forall i :: 0 <= i < |s| ==> WireChar(s[i]);
  }

  lemma QueryIsSafe(fields: seq<Field>)
    ensures Safe(UrlEncode(fields))
  {
    UrlEncodeChars(fields);
  }

  lemma OpaqueIdPrints(v: Value)
    requires OpaqueRemoteId(v) || ShortString(v, 128)
    ensures SegmentText(Quote(ValueText(v), false)) && Safe(Quote(ValueText(v), false))
    ensures Str(Unquote(Quote(ValueText(v), false), false)) == v
  {
    QuoteIsWire(v.text, false);
    WireIsSafe(Quote(v.text, false));
    QuoteRoundTrip(v.text, false);
  }

  lemma KeyNameRoundTrip(key: Key)
    requires ListKey(key) || key == SortBy || key == FileId
    ensures KeyOf(KeyText(key)) == key
  {
  }

  lemma {:induction false} OptionalFieldKeys(payload: Payload, keys: seq<Key>)
    ensures forall i :: 0 <= i < |OptionalFields(payload, keys)| ==> OptionalFields(payload, keys)[i].0 in keys
  {
    if keys != [] {
      OptionalFieldKeys(payload, keys[1..]);
    }
  }

  lemma ValuesStep(first: KeyedField, rest: seq<KeyedField>, key: Key)
    ensures Values([first] + rest, key) == (if first.0 == key then [first.1] else []) + Values(rest, key)
  {
    assert ([first] + rest)[1..] == rest;
  }

  ghost predicate DistinctKeys(keys: seq<Key>) {
    forall i, j :: 0 <= i < j < |keys| ==> keys[i] != keys[j]
  }

  /** Each optional field is printed once when the payload has it. */
  lemma {:induction false} OptionalValues(payload: Payload, keys: seq<Key>, key: Key)
    requires DistinctKeys(keys)
    ensures Values(OptionalFields(payload, keys), key) ==
            if key in keys && key in payload then [ValueText(payload[key])] else []
  {
    if keys != [] {
      var rest := OptionalFields(payload, keys[1..]);
      OptionalValues(payload, keys[1..], key);
      assert key in keys <==> key == keys[0] || key in keys[1..];
      if keys[0] in payload {
        ValuesStep((keys[0], ValueText(payload[keys[0]])), rest, key);
      } else {
        assert OptionalFields(payload, keys) == rest;
      }
    }
  }

  /** The place of an optional field in the printed order. */
  function PlaceOf(key: Key): nat {
    match key
    case CreatedFrom => 0 case CreatedTo => 1 case PartnerInn => 2 case PartnerId => 3
    case StatusCode => 4 case TypeCode => 5 case Folder => 6 case ProductGroup => 7
    case _ => 8
  }

  lemma KeyAtPlace(key: Key)
    requires OptionalKey(key)
    ensures PlaceOf(key) < |OPTIONAL_KEYS| && OPTIONAL_KEYS[PlaceOf(key)] == key
  {
  }

  lemma PlaceOfKeyAt(i: nat)
    requires i < |OPTIONAL_KEYS|
    ensures PlaceOf(OPTIONAL_KEYS[i]) == i && OptionalKey(OPTIONAL_KEYS[i])
  {
  }

  lemma OptionalKeysListed(key: Key)
    ensures key in OPTIONAL_KEYS <==> OptionalKey(key)
    ensures DistinctKeys(OPTIONAL_KEYS)
  {
    hide PlaceOf, OptionalKey;
    var keys := OPTIONAL_KEYS;
    forall i | 0 <= i < |keys| ensures PlaceOf(keys[i]) == i && OptionalKey(keys[i]) {
      PlaceOfKeyAt(i);
    }
    if OptionalKey(key) {
      KeyAtPlace(key);
    }
  }

  /** All the values of one name in a built list query. */
  function ExpectedValues(payload: Payload, key: Key): seq<string> {
    if key == SortBy then ["created_at"]
    else if key in {Limit, Offset, Asc} then [TextOf(payload, key)]
    else if OptionalKey(key) && key in payload then [ValueText(payload[key])]
    else []
  }

  lemma ListFieldValues(payload: Payload, key: Key)
    ensures Values(ListFields(payload), key) == ExpectedValues(payload, key)
  {
    hide Values, OptionalFields, ValueText, Get, OptionalKey, DistinctKeys;
    var asc, optional := (Asc, TextOf(payload, Asc)), OptionalFields(payload, OPTIONAL_KEYS);
    var sortBy, offset, limit :=
      (SortBy, "created_at"), (Offset, TextOf(payload, Offset)), (Limit, TextOf(payload, Limit));
    ValuesStep(asc, optional, key);
    ValuesStep(sortBy, [asc] + optional, key);
    ValuesStep(offset, [sortBy] + ([asc] + optional), key);
    ValuesStep(limit, [offset] + ([sortBy] + ([asc] + optional)), key);
    assert ListFields(payload) == [limit] + ([offset] + ([sortBy] + ([asc] + optional)));
    OptionalKeysListed(key);
    OptionalValues(payload, OPTIONAL_KEYS, key);
  }

  lemma {:induction false} ValuesOfField(query: seq<KeyedField>, i: nat)
    requires i < |query|
    ensures query[i].1 in Values(query, query[i].0)
  {
    if i > 0 {
      ValuesOfField(query[1..], i - 1);
    }
  }

  lemma {:induction false} FieldOfValues(query: seq<KeyedField>, key: Key) returns (i: nat)
    requires Values(query, key) != []
    ensures i < |query| && query[i].0 == key
  {
    if query[0].0 == key {
      i := 0;
    } else {
      i := FieldOfValues(query[1..], key);
      i := i + 1;
    }
  }

  /** Reading a built list query gives back its keyed fields. */
  lemma ListQueryReads(payload: Payload)
    ensures Query(Some(UrlEncode(Named(ListFields(payload))))) == ListFields(payload)
  {
    var fields := ListFields(payload);
    QueryRoundTrip(Named(fields));
    forall i | 0 <= i < |fields| ensures KeyOf(KeyText(fields[i].0)) == fields[i].0 {
      ValuesOfField(fields, i);
      ListFieldValues(payload, fields[i].0);
      KeyNameRoundTrip(fields[i].0);
    }
    assert Keyed(Named(fields)) == fields;
  }

  // ---------- Acceptance ----------

  lemma {:induction false} NumberReadsDecimal(u: Unicode, n: nat)
    requires Standard(u)
    ensures Number(u, Decimal(n)) == n
  {
    var s := Decimal(n);
    if n >= 10 {
      NumberReadsDecimal(u, n / 10);
      assert s[..|s| - 1] == Decimal(n / 10);
    } else {
      assert Number(u, "") == 0 && s[..|s| - 1] == "";
    }
  }

  /** The guard's number reader inverts the builder's number printer. */
  lemma UintReadsDecimal(u: Unicode, n: nat)
    requires Standard(u)
    ensures Uint(u, Decimal(n)) == n
  {
    hide Number, Decimal;
    DecimalIsDigits(n);
    NumberReadsDecimal(u, n);
    if Decimal(n) == "0" {
      DecimalOfZero(n);
    } else {
      assert forall i :: 0 < i < |Decimal(n)| ==> u.isDecimal(Decimal(n)[i]);
    }
  }

  /** The one condition the guard adds: INNs are made of \d characters. */
  predicate InnsAreDecimal(u: Unicode, payload: Payload) {
    && (InnKey in payload ==> AllDecimal(u, TextOf(payload, InnKey)))
    && (PartnerInn in payload ==> AllDecimal(u, TextOf(payload, PartnerInn)))
  }

  lemma CanonicalListFacts(u: Unicode, job: JobType, payload: Payload)
    requires IsListJob(job) && Canonical(u, job, payload)
    ensures ListFine(u, payload) && CanonicalList(payload) == payload && forall k :: k in payload ==> ListKey(k)
  {
    hide BadListField;
    NoBadFieldIffFine(u, payload);
  }

  lemma PrintedNumber(u: Unicode, v: Value)
    requires Standard(u) && v.Int? && v.number >= 0
    ensures Uint(u, ValueText(v)) == v.number
  {
    hide Uint, Decimal;
    UintReadsDecimal(u, v.number);
  }

  lemma PrintedOptionAllowed(u: Unicode, key: Key, v: Value)
    requires Standard(u) && OptionalOk(u, key, v)
    ensures if key == PartnerInn then ListValueAllowed(u, key, ValueText(v)) <==> AllDecimal(u, ValueText(v))
            else ListValueAllowed(u, key, ValueText(v))
  {
    hide Uint, Decimal, AllDecimal;
    if v.Int? && v.number >= 0 {
      PrintedNumber(u, v);
    }
  }

  lemma PrintedFieldAllowed(u: Unicode, job: JobType, payload: Payload, key: Key)
    requires Standard(u) && IsListJob(job) && Canonical(u, job, payload)
    requires ExpectedValues(payload, key) != []
    ensures AllowedListKey(key) && |ExpectedValues(payload, key)| == 1
    ensures var text := ExpectedValues(payload, key)[0];
            ListValueAllowed(u, key, text) <==> (key == PartnerInn ==> AllDecimal(u, text))
  {
    hide Uint, Decimal, AllDecimal, InnText, OptionalOk, CanonicalList, Validate;
    CanonicalListFacts(u, job, payload);
    if OptionalKey(key) {
      assert GivenOk(u, payload, key);
      OptionalIsGiven(payload, key);
      PrintedOptionAllowed(u, key, payload[key]);
    } else {
      FixedFieldsArePresent(payload);
      if key == Limit || key == Offset {
        PrintedNumber(u, payload[key]);
      }
    }
  }

  lemma OptionalIsGiven(payload: Payload, key: Key)
    requires CanonicalList(payload) == payload && OptionalKey(key) && key in payload
    ensures payload[key] != Null
  {
    assert key in CanonicalList(payload);
  }

  lemma FixedFieldsArePresent(payload: Payload)
    requires CanonicalList(payload) == payload
    ensures Limit in payload && Offset in payload && Asc in payload
  {
    assert Limit in CanonicalList(payload) && Offset in CanonicalList(payload) && Asc in CanonicalList(payload);
  }

  lemma ListAcceptedIff(u: Unicode, job: JobType, payload: Payload)
    requires Standard(u) && IsListJob(job) && Canonical(u, job, payload)
    ensures ListQueryAllowed(u, ListFields(payload)) <==> InnsAreDecimal(u, payload)
  {
    hide Canonical, ListFields, Values, ExpectedValues, ListValueAllowed, AllowedListKey, AllDecimal;
    var fields := ListFields(payload);
    forall i | 0 <= i < |fields|
      ensures AllowedListKey(fields[i].0) && |Values(fields, fields[i].0)| == 1
      ensures var text := Values(fields, fields[i].0)[0];
              ListValueAllowed(u, fields[i].0, text) <==> (fields[i].0 == PartnerInn ==> AllDecimal(u, text))
    {
      ValuesOfField(fields, i);
      ListFieldValues(payload, fields[i].0);
      PrintedFieldAllowed(u, job, payload, fields[i].0);
    }
    FixedValues(payload);
    PartnerInnValue(u, job, payload);
    if PartnerInn in payload {
      var i := FieldOfValues(fields, PartnerInn);
    } else {
      forall i | 0 <= i < |fields| ensures fields[i].0 != PartnerInn {
        ValuesOfField(fields, i);
      }
    }
  }

  lemma FixedValues(payload: Payload)
    ensures var fields := ListFields(payload);
            && Values(fields, Limit) != [] && Values(fields, Offset) != []
            && Values(fields, SortBy) != [] && Values(fields, Asc) != []
  {
    hide ListFields, Values;
    ListFieldValues(payload, Limit);
    ListFieldValues(payload, Offset);
    ListFieldValues(payload, SortBy);
    ListFieldValues(payload, Asc);
  }

  lemma PartnerInnValue(u: Unicode, job: JobType, payload: Payload)
    requires IsListJob(job) && Canonical(u, job, payload)
    ensures Values(ListFields(payload), PartnerInn) ==
              if PartnerInn in payload then [TextOf(payload, PartnerInn)] else []
    ensures InnKey !in payload
  {
    hide ListFields, Values, ListFine, CanonicalList, Canonical;
    ListFieldValues(payload, PartnerInn);
    CanonicalListFacts(u, job, payload);
    assert InnKey in payload ==> ListKey(InnKey);
  }

  /** A path the guard takes apart as the builder put it together. */
  ghost predicate GoodPath(s: string) {
    Safe(s) && Free(s, '?') && |s| >= 2 && s[0] == '/' && s[1] != '/'
  }

  lemma PathTextIsGood(segments: seq<string>)
    requires SafeSegments(segments) && segments != []
    ensures GoodPath(PathText(segments))
  {
    PathTextIsSafe(segments);
  }

  lemma IdPathIsGood(prefix: string, id: string, suffix: seq<string>)
    requires GoodPath(prefix) && SafeSegments(suffix)
    requires Safe(id) && Free(id, '?')
    ensures GoodPath(prefix + "/" + id + PathText(suffix))
  {
    hide PathText;
    PathTextIsSafe(suffix);
  }

  lemma InnPathIsGood(prefix: string, inn: string)
    requires GoodPath(prefix) && Safe(inn) && Free(inn, '?')
    ensures GoodPath(prefix + "/" + inn)
  {
  }

  /** Whatever counts as a digit may stand in a path. */
  lemma InnIsSafe(u: Unicode, v: Value)
    requires Standard(u) && Inn(u, v)
    ensures Safe(ValueText(v)) && Free(ValueText(v), '?') && Free(ValueText(v), '/')
  {
    forall i | 0 <= i < |v.text| ensures SafeChar(v.text[i]) && v.text[i] != '?' && v.text[i] != '/' {
      assert u.isDigit(v.text[i]);
    }
  }

  lemma InnMatchesIff(u: Unicode, prefix: seq<string>, inn: string)
    ensures MatchesInn(u, PathText(prefix) + "/" + inn, prefix) <==> InnText(u, inn)
  {
    var path := PathText(prefix) + "/" + inn;
    if MatchesInn(u, path, prefix) {
      var other :| InnText(u, other) && path == PathText(prefix) + "/" + other;
      assert other == path[|PathText(prefix)| + 1..] == inn;
    }
  }

  lemma FileQueryReads(text: string)
    ensures Query(Some(UrlEncode(Named([(FileId, text)])))) == [(FileId, text)]
  {
    hide UrlEncode, ReadQuery;
    var fields := [(FileId, text)];
    QueryRoundTrip(Named(fields));
    KeyNameRoundTrip(FileId);
    assert Keyed(Named(fields)) == fields;
  }

  /** The parts of a canonical payload of each kind of target. */
  lemma CanonicalParts(u: Unicode, job: JobType, payload: Payload)
    requires Canonical(u, job, payload)
    ensures job != UNSUPPORTED
    ensures match GuardShape(job)
            case InnShape(_) => payload.Keys == {InnKey} && Inn(u, payload[InnKey])
            case ListShape(_) => IsListJob(job)
            case IdShape(_, _) => payload.Keys == {DocumentId} && OpaqueRemoteId(payload[DocumentId])
            case TwoIdsShape(_, _, _) =>
              && payload.Keys == {DocumentId, SecondKey(job)} && OpaqueRemoteId(payload[DocumentId])
              && (OpaqueRemoteId(payload[SecondKey(job)]) || ShortString(payload[SecondKey(job)], 128))
            case FixedShape(_) => payload == map[]
            case FileShape(_) => payload.Keys == {FileId} && OpaqueRemoteId(payload[FileId])
            case NoShape => false
  {
    hide CanonicalList, BadListField, ListKey;
  }

  lemma GuardReadsPath(u: Unicode, job: JobType, path: string)
    requires job != UNSUPPORTED && GoodPath(path)
    ensures Allowed(u, Spec(job, "GET", path)) <==> PathAndQueryAllowed(u, job, path, [])
  {
    hide PathAndQueryAllowed, Allowed;
    GuardReadsTarget(u, job, path, None);
    assert path + "" == path;
  }

  lemma GuardReadsQuery(u: Unicode, job: JobType, path: string, fields: seq<Field>)
    requires job != UNSUPPORTED && GoodPath(path)
    ensures Allowed(u, Spec(job, "GET", path + "?" + UrlEncode(fields)))
            <==> PathAndQueryAllowed(u, job, path, Query(Some(UrlEncode(fields))))
  {
    hide PathAndQueryAllowed, Allowed, UrlEncode, Query;
    QueryIsSafe(fields);
    GuardReadsTarget(u, job, path, Some(UrlEncode(fields)));
    assert path + ("?" + UrlEncode(fields)) == path + "?" + UrlEncode(fields);
  }

  lemma InnAcceptedIff(u: Unicode, job: JobType, payload: Payload)
    requires Standard(u) && Canonical(u, job, payload) && GuardShape(job).InnShape?
    ensures Allowed(u, Spec(job, "GET", Target(job, payload))) <==> InnsAreDecimal(u, payload)
  {
    hide Canonical, Allowed, Standard, Inn, Safe, Free, GoodPath, AllDecimal, MatchesInn, SafeSegments;
    CanonicalParts(u, job, payload);
    ShapesAgree(job);
    ShapesAreSafe(job);
    var prefix, inn := GuardShape(job).prefix, TextOf(payload, InnKey);
    PathTextIsGood(prefix);
    InnIsSafe(u, payload[InnKey]);
    InnPathIsGood(PathText(prefix), inn);
    GuardReadsPath(u, job, PathText(prefix) + "/" + inn);
    InnMatchesIff(u, prefix, inn);
    assert |inn| in {10, 12} by { InnLength(u, payload[InnKey]); }
  }

  lemma InnLength(u: Unicode, v: Value)
    requires Inn(u, v)
    ensures |ValueText(v)| in {10, 12}
  {
  }

  lemma ListAcceptance(u: Unicode, job: JobType, payload: Payload)
    requires Standard(u) && Canonical(u, job, payload) && GuardShape(job).ListShape?
    ensures Allowed(u, Spec(job, "GET", Target(job, payload))) <==> InnsAreDecimal(u, payload)
  {
    hide Canonical, Allowed, Standard, GoodPath, ListFields, Named, UrlEncode, Query, ListQueryAllowed;
    hide InnsAreDecimal, SafeSegments;
    CanonicalParts(u, job, payload);
    ShapesAgree(job);
    ShapesAreSafe(job);
    PathTextIsGood(GuardShape(job).path);
    GuardReadsQuery(u, job, PathText(GuardShape(job).path), Named(ListFields(payload)));
    ListQueryReads(payload);
    ListAcceptedIff(u, job, payload);
  }

  lemma IdAccepted(u: Unicode, job: JobType, payload: Payload)
    requires Canonical(u, job, payload) && GuardShape(job).IdShape?
    ensures Allowed(u, Spec(job, "GET", Target(job, payload)))
  {
    hide Canonical, Allowed, Safe, Free, GoodPath, Quote, Unquote, SafeSegments;
    CanonicalParts(u, job, payload);
    ShapesAgree(job);
    ShapesAreSafe(job);
    var IdShape(prefix, suffix) := GuardShape(job);
    var id := Quote(TextOf(payload, DocumentId), false);
    PathTextIsGood(prefix);
    OpaqueIdPrints(payload[DocumentId]);
    IdPathIsGood(PathText(prefix), id, suffix);
    GuardReadsPath(u, job, PathText(prefix) + "/" + id + PathText(suffix));
    assert MatchesId(PathText(prefix) + "/" + id + PathText(suffix), prefix, suffix);
  }

  lemma TwoIdsPathIsGood(prefix: string, first: string, middle: seq<string>, second: string, suffix: seq<string>)
    requires GoodPath(prefix) && SafeSegments(middle) && middle != [] && SafeSegments(suffix)
    requires Safe(first) && Free(first, '?') && Safe(second) && Free(second, '?')
    ensures GoodPath(prefix + "/" + first + (PathText(middle) + "/" + second + PathText(suffix)))
  {
    hide PathText;
    PathTextIsGood(middle);
    IdPathIsGood(PathText(middle), second, suffix);
  }

  lemma TwoIdsAccepted(u: Unicode, job: JobType, payload: Payload)
    requires Canonical(u, job, payload) && GuardShape(job).TwoIdsShape?
    ensures Allowed(u, Spec(job, "GET", Target(job, payload)))
  {
    hide Canonical, Allowed, Safe, Free, GoodPath, Quote, Unquote, SafeSegments;
    CanonicalParts(u, job, payload);
    ShapesAgree(job);
    ShapesAreSafe(job);
    var TwoIdsShape(prefix, middle, suffix) := GuardShape(job);
    var first, second := Quote(TextOf(payload, DocumentId), false), Quote(TextOf(payload, SecondKey(job)), false);
    PathTextIsGood(prefix);
    OpaqueIdPrints(payload[DocumentId]);
    OpaqueIdPrints(payload[SecondKey(job)]);
    TwoIdsPathIsGood(PathText(prefix), first, middle, second, suffix);
    var path := PathText(prefix) + "/" + first + (PathText(middle) + "/" + second + PathText(suffix));
    GuardReadsPath(u, job, path);
    assert MatchesTwoIds(path, prefix, middle, suffix);
  }

  lemma FixedOrFileAccepted(u: Unicode, job: JobType, payload: Payload)
    requires Canonical(u, job, payload) && (GuardShape(job).FixedShape? || GuardShape(job).FileShape?)
    ensures Allowed(u, Spec(job, "GET", Target(job, payload)))
  {
    hide Canonical, Allowed, GoodPath, Named, UrlEncode, Query, SafeSegments;
    CanonicalParts(u, job, payload);
    ShapesAgree(job);
    ShapesAreSafe(job);
    var path := PathText(GuardShape(job).path);
    PathTextIsGood(GuardShape(job).path);
    if GuardShape(job).FixedShape? {
      GuardReadsPath(u, job, path);
    } else {
      var text := TextOf(payload, FileId);
      GuardReadsQuery(u, job, path, Named([(FileId, text)]));
      FileQueryReads(text);
    }
  }

  /**
   The guard takes every built target, with one exception: an INN holding a character that is a
   digit for str.isdigit and not for \d.
   */
  lemma GuardAcceptsBuiltIff(u: Unicode, job: JobType, payload: Payload)
    requires Standard(u) && Build(u, job, payload).Ok?
    ensures Allowed(u, Build(u, job, payload).value) <==> InnsAreDecimal(u, payload)
  {
    hide Validate, Allowed, Target, Standard;
    assert Canonical(u, job, payload);
    CanonicalParts(u, job, payload);
    match GuardShape(job)
    case InnShape(_) => InnAcceptedIff(u, job, payload);
    case ListShape(_) => ListAcceptance(u, job, payload);
    case IdShape(_, _) => IdAccepted(u, job, payload);
    case TwoIdsShape(_, _, _) => TwoIdsAccepted(u, job, payload);
    case FixedShape(_) => FixedOrFileAccepted(u, job, payload);
    case FileShape(_) => FixedOrFileAccepted(u, job, payload);
  }

  ghost predicate Ascii(s: string) {
    forall i :: 0 <= i < |s| ==> (s[i] as int) < 128
  }

  /** With ASCII INNs, as the law names them, the guard takes every built target. */
  lemma GuardAcceptsAsciiInns(u: Unicode, job: JobType, payload: Payload)
    requires Standard(u) && Build(u, job, payload).Ok?
    requires InnKey in payload ==> Ascii(TextOf(payload, InnKey))
    requires PartnerInn in payload ==> Ascii(TextOf(payload, PartnerInn))
    ensures Allowed(u, Build(u, job, payload).value)
  {
    hide Allowed, Target;
    GuardAcceptsBuiltIff(u, job, payload);
    forall key | key in {InnKey, PartnerInn} && key in payload ensures AllDecimal(u, TextOf(payload, key)) {
      InnOfCanonical(u, job, payload, key);
    }
  }

  lemma InnOfCanonical(u: Unicode, job: JobType, payload: Payload, key: Key)
    requires Canonical(u, job, payload) && key in payload && key in {InnKey, PartnerInn}
    ensures Inn(u, payload[key])
  {
    hide Canonical, Inn, CanonicalList, Direction;
    CanonicalParts(u, job, payload);
    if IsListJob(job) {
      CanonicalListFacts(u, job, payload);
      assert ListKey(key) && GivenOk(u, payload, key);
      OptionalIsGiven(payload, key);
    }
  }

  /** A superscript digit separates the two: the builder prints the INN and the guard refuses it. */
  lemma GuardRefusesSuperscriptInn(u: Unicode)
    requires Standard(u) && u.isDigit('\U{00B2}') && !u.isDecimal('\U{00B2}')
    ensures var payload := map[InnKey := Str("770000000\U{00B2}")];
            Build(u, EDO_PARTICIPANT, payload).Ok? && !Allowed(u, Build(u, EDO_PARTICIPANT, payload).value)
  {
    hide Allowed;
    var inn := "770000000\U{00B2}";
    var payload := map[InnKey := Str(inn)];
    assert AllDigits(u, inn);
    assert Canonical(u, EDO_PARTICIPANT, payload);
    assert !u.isDecimal(inn[9]);
    GuardAcceptsBuiltIff(u, EDO_PARTICIPANT, payload);
  }

  // ---------- Reading a target back ----------

  /** s without its first and last characters, so many of each. */
  function Cut(s: string, first: nat, last: nat): string {
    if first + last <= |s| then s[first..|s| - last] else ""
  }

  function DecodeId(text: string): Value {
    Str(Unquote(text, false))
  }

  function DecodeListValue(u: Unicode, key: Key, raw: string): Value {
    if key in {PartnerInn, PartnerId} then Str(raw)
    else if key == Asc then Bool(raw == "true")
    else Int(Uint(u, raw))
  }

  function KeysOf(query: seq<KeyedField>): set<Key> {
    set i | 0 <= i < |query| :: query[i].0
  }

  function FirstValue(query: seq<KeyedField>, key: Key): string {
    var values := Values(query, key);
    if values == [] then "" else values[0]
  }

  function DecodeList(u: Unicode, query: seq<KeyedField>): Payload {
    map k | k in KeysOf(query) && k != SortBy :: DecodeListValue(u, k, FirstValue(query, k))
  }

  /** The payload a target stands for, read with the guard's patterns. */
  function DecodeTarget(u: Unicode, job: JobType, target: string): Payload {
    var (path, queryText) := Partition(target, '?');
    DecodeParts(u, job, path, Query(queryText))
  }

  function DecodeParts(u: Unicode, job: JobType, path: string, query: seq<KeyedField>): Payload {
    match GuardShape(job)
    case InnShape(prefix) => map[InnKey := Str(Cut(path, |PathText(prefix)| + 1, 0))]
    case ListShape(_) => DecodeList(u, query)
    case IdShape(prefix, suffix) =>
      map[DocumentId := DecodeId(Cut(path, |PathText(prefix)| + 1, |PathText(suffix)|))]
    case TwoIdsShape(prefix, middle, suffix) =>
      var ids := Cut(path, |PathText(prefix)| + 1, |PathText(suffix)|);
      var first := Partition(ids, '/').0;
      map[DocumentId := DecodeId(first), SecondKey(job) := DecodeId(Cut(ids, |first| + |PathText(middle)| + 1, 0))]
    case FixedShape(_) => map[]
    case FileShape(_) => map[FileId := Str(FirstValue(query, FileId))]
    case NoShape => map[]
  }

  lemma DecodesPrinted(u: Unicode, job: JobType, payload: Payload, key: Key)
    requires Standard(u) && IsListJob(job) && Canonical(u, job, payload) && key in payload
    ensures DecodeListValue(u, key, TextOf(payload, key)) == payload[key]
  {
    hide Uint, Decimal, Canonical, CanonicalList;
    CanonicalListFacts(u, job, payload);
    assert ListKey(key);
    if OptionalKey(key) {
      OptionalIsGiven(payload, key);
      assert GivenOk(u, payload, key);
    }
    if payload[key].Int? {
      PrintedNumber(u, payload[key]);
    }
  }

  lemma ExpectedWhenGiven(u: Unicode, job: JobType, payload: Payload, key: Key)
    requires IsListJob(job) && Canonical(u, job, payload) && key != SortBy
    ensures ExpectedValues(payload, key) == if key in payload then [TextOf(payload, key)] else []
  {
    hide Canonical, CanonicalList, ValueText, ListFine;
    CanonicalListFacts(u, job, payload);
    FixedFieldsArePresent(payload);
  }

  lemma SortByIsNoField(u: Unicode, job: JobType, payload: Payload)
    requires IsListJob(job) && Canonical(u, job, payload)
    ensures SortBy !in payload
  {
    hide Canonical, CanonicalList, ListFine;
    CanonicalListFacts(u, job, payload);
    assert SortBy in payload ==> ListKey(SortBy);
  }

  lemma ListDecodes(u: Unicode, job: JobType, payload: Payload)
    requires Standard(u) && IsListJob(job) && Canonical(u, job, payload)
    ensures DecodeList(u, ListFields(payload)) == payload
  {
    hide Canonical, Standard, ListFields, Values, ExpectedValues, DecodeListValue, TextOf;
    var fields := ListFields(payload);
    forall key | key != SortBy
      ensures key in KeysOf(fields) <==> key in payload
      ensures key in payload ==> DecodeListValue(u, key, FirstValue(fields, key)) == payload[key]
    {
      ListFieldValues(payload, key);
      ExpectedWhenGiven(u, job, payload, key);
      if key in payload {
        var i := FieldOfValues(fields, key);
        DecodesPrinted(u, job, payload, key);
      }
      if key in KeysOf(fields) {
        var i :| 0 <= i < |fields| && fields[i].0 == key;
        ValuesOfField(fields, i);
      }
    }
    SortByIsNoField(u, job, payload);
  }

  lemma CutPrefix(prefix: string, id: string, suffix: string)
    ensures Cut(prefix + "/" + id + suffix, |prefix| + 1, |suffix|) == id
    ensures Cut(prefix + "/" + id, |prefix| + 1, 0) == id
  {
  }

  lemma FirstSegment(first: string, rest: string)
    requires Free(first, '/') && rest != "" && rest[0] == '/'
    ensures Partition(first + rest, '/').0 == first
  {
    hide Free, Partition;
    PartitionAt(first, '/', rest[1..]);
    assert first + rest == first + ['/'] + rest[1..];
  }

  lemma TwoIdsDecode(first: string, middle: string, second: string)
    requires Free(first, '/') && middle != "" && middle[0] == '/'
    ensures var ids := first + (middle + "/" + second);
            Partition(ids, '/').0 == first && Cut(ids, |first| + |middle| + 1, 0) == second
  {
    hide Free, Partition, Cut;
    FirstSegment(first, middle + "/" + second);
    CutPrefix(first + middle, second, "");
    assert first + (middle + "/" + second) == first + middle + "/" + second;
  }

  lemma PathAlone(path: string)
    requires Free(path, '?')
    ensures Partition(path, '?') == (path, None)
  {
    PartitionNone(path, '?');
  }

  lemma PathWithQuery(path: string, query: string)
    requires Free(path, '?')
    ensures Partition(path + "?" + query, '?') == (path, Some(query))
  {
    PartitionAt(path, '?', query);
    assert path + "?" + query == path + ['?'] + query;
  }

  lemma InnOrIdDecodes(u: Unicode, job: JobType, payload: Payload)
    requires Standard(u) && Canonical(u, job, payload) && (GuardShape(job).InnShape? || GuardShape(job).IdShape?)
    ensures DecodeTarget(u, job, Target(job, payload)) == payload
  {
    hide Direction, ValueText, BuilderShape, GuardShape;
    hide Canonical, Standard, Inn, OpaqueRemoteId, Safe, GoodPath, Quote, Unquote, SafeSegments, Cut, Partition, Free;
    CanonicalParts(u, job, payload);
    ShapesAgree(job);
    ShapesAreSafe(job);
    var prefix := GuardShape(job).prefix;
    PathTextIsGood(prefix);
    if GuardShape(job).InnShape? {
      InnIsSafe(u, payload[InnKey]);
      InnPathIsGood(PathText(prefix), TextOf(payload, InnKey));
      GoodPathIsFree(PathText(prefix) + "/" + TextOf(payload, InnKey));
      PathAlone(Target(job, payload));
      CutPrefix(PathText(prefix), TextOf(payload, InnKey), "");
      InnIsText(u, payload[InnKey]);
    } else {
      var id, suffix := Quote(TextOf(payload, DocumentId), false), GuardShape(job).suffix;
      OpaqueIdPrints(payload[DocumentId]);
      IdIsFree(id);
      IdPathIsGood(PathText(prefix), id, suffix);
      GoodPathIsFree(PathText(prefix) + "/" + id + PathText(suffix));
      PathAlone(Target(job, payload));
      CutPrefix(PathText(prefix), id, PathText(suffix));
    }
  }

  lemma InnIsText(u: Unicode, v: Value)
    requires Inn(u, v)
    ensures Str(ValueText(v)) == v
  {
  }

  lemma IdIsFree(id: string)
    requires SegmentText(id)
    ensures Free(id, '?') && Free(id, '/')
  {
  }

  lemma GoodPathIsFree(path: string)
    requires GoodPath(path)
    ensures Free(path, '?')
  {
  }

  lemma TwoIdsPathDecodes(prefix: string, first: string, middle: string, second: string, suffix: string)
    requires Free(first, '/') && middle != "" && middle[0] == '/'
    ensures var ids := Cut(prefix + "/" + first + (middle + "/" + second + suffix), |prefix| + 1, |suffix|);
            Partition(ids, '/').0 == first && Cut(ids, |first| + |middle| + 1, 0) == second
  {
    hide Free, Partition, Cut;
    var ids := first + (middle + "/" + second);
    TwoIdsDecode(first, middle, second);
    CutPrefix(prefix, ids, suffix);
    assert prefix + "/" + first + (middle + "/" + second + suffix) == prefix + "/" + ids + suffix;
  }

  lemma TwoIdsTargetDecodes(u: Unicode, job: JobType, payload: Payload)
    requires Canonical(u, job, payload) && GuardShape(job).TwoIdsShape?
    ensures DecodeTarget(u, job, Target(job, payload)) == payload
  {
    hide Canonical, OpaqueRemoteId, ShortString, Safe, GoodPath, SegmentText, Quote, Unquote, SafeSegments, Cut;
    hide Partition, Free, PathText;
    hide Direction, ValueText, BuilderShape, GuardShape;
    CanonicalParts(u, job, payload);
    ShapesAgree(job);
    ShapesAreSafe(job);
    var TwoIdsShape(prefix, middle, suffix) := GuardShape(job);
    var first, second := Quote(TextOf(payload, DocumentId), false), Quote(TextOf(payload, SecondKey(job)), false);
    PathTextIsGood(prefix);
    PathTextIsGood(middle);
    OpaqueIdPrints(payload[DocumentId]);
    OpaqueIdPrints(payload[SecondKey(job)]);
    IdIsFree(first);
    IdIsFree(second);
    TwoIdsPathIsGood(PathText(prefix), first, middle, second, suffix);
    GoodPathIsFree(Target(job, payload));
    PathAlone(Target(job, payload));
    GoodPathStart(PathText(middle));
    TwoIdsPathDecodes(PathText(prefix), first, PathText(middle), second, PathText(suffix));
  }

  lemma GoodPathStart(path: string)
    requires GoodPath(path)
    ensures path != "" && path[0] == '/'
  {
  }

  lemma QueryTargetDecodes(u: Unicode, job: JobType, payload: Payload)
    requires Standard(u) && Canonical(u, job, payload) && (GuardShape(job).ListShape? || GuardShape(job).FileShape?)
    ensures DecodeTarget(u, job, Target(job, payload)) == payload
  {
    hide Canonical, Standard, Safe, GoodPath, UrlEncode, Named, ListFields, DecodeList, Query, SafeSegments;
    hide Partition, Free, PathText;
    CanonicalParts(u, job, payload);
    ShapesAgree(job);
    ShapesAreSafe(job);
    var path := PathText(GuardShape(job).path);
    PathTextIsGood(GuardShape(job).path);
    GoodPathIsFree(path);
    if GuardShape(job).ListShape? {
      PathWithQuery(path, UrlEncode(Named(ListFields(payload))));
      ListQueryReads(payload);
      ListDecodes(u, job, payload);
    } else {
      var text := TextOf(payload, FileId);
      PathWithQuery(path, UrlEncode(Named([(FileId, text)])));
      FileQueryReads(text);
    }
  }

  /** Printing a payload and reading the target back gives the payload: no field is lost on the wire. */
  lemma TargetRoundTrip(u: Unicode, job: JobType, payload: Payload)
    requires Standard(u) && Build(u, job, payload).Ok?
    ensures DecodeTarget(u, job, Build(u, job, payload).value.target) == payload
  {
    hide Validate, Target, DecodeTarget, Standard;
    assert Canonical(u, job, payload);
    CanonicalParts(u, job, payload);
    match GuardShape(job)
    case InnShape(_) => InnOrIdDecodes(u, job, payload);
    case ListShape(_) => QueryTargetDecodes(u, job, payload);
    case IdShape(_, _) => InnOrIdDecodes(u, job, payload);
    case TwoIdsShape(_, _, _) => TwoIdsTargetDecodes(u, job, payload);
    case FixedShape(_) => FixedTargetDecodes(u, job, payload);
    case FileShape(_) => QueryTargetDecodes(u, job, payload);
  }

  lemma FixedTargetDecodes(u: Unicode, job: JobType, payload: Payload)
    requires payload == map[] && GuardShape(job).FixedShape?
    ensures DecodeTarget(u, job, Target(job, payload)) == payload
  {
    hide Direction, BuilderShape, GuardShape, Partition, PathText, Free, Safe, SafeSegments, Query;
    ShapesAgree(job);
    ShapesAreSafe(job);
    var path := GuardShape(job).path;
    PathTextIsGood(path);
    GoodPathIsFree(PathText(path));
    PathAlone(PathText(path));
  }

  /** Two requests of one job type with one target carry one payload. */
  lemma BuilderIsInjective(u: Unicode, job: JobType, first: Payload, second: Payload)
    requires Standard(u) && Build(u, job, first).Ok? && Build(u, job, second).Ok?
    requires Build(u, job, first).value.target == Build(u, job, second).value.target
    ensures first == second
  {
    hide Validate, Target, DecodeTarget, Standard;
    TargetRoundTrip(u, job, first);
    TargetRoundTrip(u, job, second);
  }

  /** The payloads the builder takes are the validator's results. */
  lemma BuilderTakesValidatorResults(u: Unicode, job: JobType, payload: Payload)
    ensures Build(u, job, payload).Ok? <==>
            exists raw: Option<Payload> :: Validate(u, job, raw) == Ok(payload)
  {
    hide Validate, Target;
    if raw: Option<Payload> :| Validate(u, job, raw) == Ok(payload) {
      ValidateIsIdempotent(u, job, raw);
    }
    if Build(u, job, payload).Ok? {
      assert Validate(u, job, Some(payload)) == Ok(payload);
    }
  }
}
