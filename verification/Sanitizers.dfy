/**
 The two evidence sanitizers over arbitrarily nested values with string keys.
 Models src/wbcz/m11_reports.py, sanitize_report_evidence, and src/wbcz/ozon_foundation.py,
 sanitize_ozon_evidence with its key predicates.

 str.lower is a parameter: the theorems hold for any lower-casing of Unicode text.
 */
module Sanitizers {
  import opened Common

  datatype Value =
    | Text(text: string)
    | Scalar(tag: int)                             // None, booleans, numbers and other leaves
    | List(items: seq<Value>)
    | Mapping(entries: seq<Entry>)                 // in insertion order

  datatype Entry = Entry(key: string, value: Value)

  const REDACTED := Text("REDACTED")

  type Lower = string -> string

  function KeepAlphanumeric(s: string): string {
    if s == "" then ""
    else (if 'a' <= s[0] <= 'z' || '0' <= s[0] <= '9' then [s[0]] else []) + KeepAlphanumeric(s[1..])
  }

  function Compact(lower: Lower, s: string): string {
    KeepAlphanumeric(lower(s))
  }

  predicate StartsWith(s: string, prefix: string) {
    prefix <= s
  }

  predicate EndsWith(s: string, suffix: string) {
    |suffix| <= |s| && s[|s| - |suffix|..] == suffix
  }

  // ---------- The sanitizer ----------

  /** What distinguishes the two sanitizers: how they read a key. */
  datatype Rules = Rules(
    redactKey: string -> bool,           // redacted wherever it stands
    discriminatorKey: string -> bool,    // names the kind of a mapping
    discriminatorText: string -> bool,   // the kinds that make a mapping sensitive
    associatedKey: string -> bool,       // redacted in a sensitive mapping
    contextKey: string -> bool)          // its value is read in the sensitive context

  /** A mapping that says of itself that it holds marking codes or secrets. */
  predicate Discriminates(rules: Rules, entries: seq<Entry>) {
    exists i :: 0 <= i < |entries| && Discriminator(rules, entries[i])
  }

  predicate Discriminator(rules: Rules, entry: Entry) {
    rules.discriminatorKey(entry.key) && entry.value.Text? && rules.discriminatorText(entry.value.text)
  }

  function Sanitize(rules: Rules, value: Value, sensitive: bool): Value
    decreases value, 0
  {
    match value
    case Text(_) => value
    case Scalar(_) => value
    case List(items) => List(SanitizeItems(rules, items, sensitive))
    case Mapping(entries) => Mapping(SanitizeEntries(rules, entries, sensitive || Discriminates(rules, entries)))
  }

  function SanitizeItems(rules: Rules, items: seq<Value>, sensitive: bool): (out: seq<Value>)
    ensures |out| == |items|
    decreases items, 0
  {
    if items == [] then [] else [Sanitize(rules, items[0], sensitive)] + SanitizeItems(rules, items[1..], sensitive)
  }

  function SanitizeEntries(rules: Rules, entries: seq<Entry>, sensitive: bool): (out: seq<Entry>)
    ensures |out| == |entries|
    decreases entries, 0
  {
    if entries == [] then []
    else [Entry(entries[0].key, SanitizeEntry(rules, entries[0].key, entries[0].value, sensitive))]
         + SanitizeEntries(rules, entries[1..], sensitive)
  }

  function SanitizeEntry(rules: Rules, key: string, item: Value, sensitive: bool): Value
    decreases item, 1
  {
    if rules.redactKey(key) then REDACTED
    else if sensitive && rules.associatedKey(key) then REDACTED
    else Sanitize(rules, item, sensitive || rules.contextKey(key))
  }

  // ---------- The two rule sets of the source, on compact keys ----------

  predicate DiscriminatorField(compact: string) {
    compact in {"key", "type", "kind", "name", "field"}
  }

  predicate ReportDirect(compact: string) {
    compact in {
      "cis", "cises", "kiz", "kizes", "sgtin", "sgtins", "mark", "marks", "marking", "markingcode", "apikey",
      "authorization", "bearer", "token", "machinetoken", "pin", "privatekey", "signature"}
  }

  predicate ReportRedacts(compact: string) {
    ReportDirect(compact) || StartsWith(compact, "cis") || StartsWith(compact, "kiz") || StartsWith(compact, "sgtin")
    || StartsWith(compact, "marking") || StartsWith(compact, "apikey") || StartsWith(compact, "token")
  }

  predicate ReportAssociated(compact: string) {
    compact in {"value", "values", "data", "codes", "code"}
  }

  function ReportRules(lower: Lower): Rules {
    Rules(
      k => ReportRedacts(Compact(lower, k)),
      k => DiscriminatorField(Compact(lower, k)),
      text => ReportDirect(Compact(lower, text)),
      k => ReportAssociated(Compact(lower, k)),
      k => false)
  }

  predicate OzonDirect(compact: string) {
    compact in {
      "sgtin", "sgtins", "cis", "cises", "kiz", "kizes", "mark", "marks", "marking", "markings", "markingcode",
      "markingcodes", "fullmarking", "fullmarkings"}
    || StartsWith(compact, "sgtin") || StartsWith(compact, "marking") || StartsWith(compact, "cis")
    || StartsWith(compact, "kiz")
  }

  predicate OzonSecret(compact: string) {
    compact in {
      "apikey", "authorization", "secret", "rawsecret", "token", "accesstoken", "clientsecret", "privatekey", "pin",
      "signature"}
    || EndsWith(compact, "apikey") || EndsWith(compact, "secret") || EndsWith(compact, "token")
  }

  predicate OzonAssociated(compact: string) {
    compact in {"value", "values", "data", "code", "codes", "mark", "marks", "sgtin", "sgtins", "cis", "cises", "kiz",
                "kizes"}
  }

  function OzonRules(lower: Lower): Rules {
    Rules(
      k => OzonSecret(Compact(lower, k)) || OzonDirect(Compact(lower, k)),
      k => DiscriminatorField(Compact(lower, k)),
      text => OzonDirect(Compact(lower, text)),
      k => OzonAssociated(Compact(lower, k)),
      k => Compact(lower, k) in {"exemplar", "exemplars"})
  }

  function SanitizeReportEvidence(lower: Lower, value: Value, sensitiveContext: bool := false): Value {
    Sanitize(ReportRules(lower), value, sensitiveContext)
  }

  function SanitizeOzonEvidence(lower: Lower, value: Value, markingContext: bool := false): Value {
    Sanitize(OzonRules(lower), value, markingContext)
  }

  // ---------- Theorems ----------

  /** The fields that decide whether a mapping is sensitive are never redacted themselves. */
  ghost predicate Stable(rules: Rules) {
    forall k :: rules.discriminatorKey(k) ==> !rules.redactKey(k) && !rules.associatedKey(k)
  }

  lemma BothRuleSetsAreStable(lower: Lower)
    ensures Stable(ReportRules(lower)) && Stable(OzonRules(lower))
  {
    hide DiscriminatorField, ReportRedacts, ReportAssociated, OzonDirect, OzonSecret, OzonAssociated;
    forall k | DiscriminatorField(Compact(lower, k))
      ensures !ReportRules(lower).redactKey(k) && !ReportRules(lower).associatedKey(k)
      ensures !OzonRules(lower).redactKey(k) && !OzonRules(lower).associatedKey(k)
    {
      DiscriminatorFieldIsKept(Compact(lower, k));
    }
  }

  lemma PrefixLetters()
    ensures "cis"[0] == 'c' && "kiz"[0] == 'k' && "kiz"[1] == 'i' && "sgtin"[0] == 's' && "marking"[0] == 'm'
    ensures "apikey"[0] == 'a' && "token"[0] == 't' && "token"[1] == 'o'
  {
  }

  lemma KeyIsKept()
    ensures !ReportRedacts("key") && !ReportAssociated("key")
    ensures !OzonDirect("key") && !OzonSecret("key") && !OzonAssociated("key")
  {
    PrefixLetters();
    assert "key"[0] == 'k' && "key"[1] == 'e';
  }

  lemma TypeIsKept()
    ensures !ReportRedacts("type") && !ReportAssociated("type")
    ensures !OzonDirect("type") && !OzonSecret("type") && !OzonAssociated("type")
  {
    PrefixLetters();
    assert "type"[0] == 't' && "type"[1] == 'y';
  }

  lemma KindIsKept()
    ensures !ReportRedacts("kind") && !ReportAssociated("kind")
    ensures !OzonDirect("kind") && !OzonSecret("kind") && !OzonAssociated("kind")
  {
    PrefixLetters();
    assert "kind"[0] == 'k' && "kind"[1] == 'i' && "kind"[2] == 'n' && "kiz"[2] == 'z';
  }

  lemma NameIsKept()
    ensures !ReportRedacts("name") && !ReportAssociated("name")
    ensures !OzonDirect("name") && !OzonSecret("name") && !OzonAssociated("name")
  {
    PrefixLetters();
    assert "name"[0] == 'n' && "name"[1] == 'a';
  }

  lemma FieldIsKept()
    ensures !ReportRedacts("field") && !ReportAssociated("field")
    ensures !OzonDirect("field") && !OzonSecret("field") && !OzonAssociated("field")
  {
    PrefixLetters();
    assert "field"[0] == 'f' && "field"[1] == 'i';
  }

  lemma DiscriminatorFieldIsKept(compact: string)
    requires DiscriminatorField(compact)
    ensures !ReportRedacts(compact) && !ReportAssociated(compact)
    ensures !OzonDirect(compact) && !OzonSecret(compact) && !OzonAssociated(compact)
  {
    hide ReportRedacts, ReportAssociated, OzonDirect, OzonSecret, OzonAssociated;
    KeyIsKept();
    TypeIsKept();
    KindIsKept();
    NameIsKept();
    FieldIsKept();
  }

  lemma {:induction false} EntryAt(rules: Rules, entries: seq<Entry>, sensitive: bool, i: nat)
    requires i < |entries|
    ensures SanitizeEntries(rules, entries, sensitive)[i]
            == Entry(entries[i].key, SanitizeEntry(rules, entries[i].key, entries[i].value, sensitive))
  {
    if i > 0 {
      EntryAt(rules, entries[1..], sensitive, i - 1);
    }
  }

  lemma {:induction false} ItemAt(rules: Rules, items: seq<Value>, sensitive: bool, i: nat)
    requires i < |items|
    ensures SanitizeItems(rules, items, sensitive)[i] == Sanitize(rules, items[i], sensitive)
  {
    if i > 0 {
      ItemAt(rules, items[1..], sensitive, i - 1);
    }
  }

  lemma DiscriminatesStill(rules: Rules, entries: seq<Entry>, sensitive: bool)
    requires Stable(rules)
    ensures Discriminates(rules, SanitizeEntries(rules, entries, sensitive)) == Discriminates(rules, entries)
  {
    var out := SanitizeEntries(rules, entries, sensitive);
    forall i | 0 <= i < |entries| ensures Discriminator(rules, out[i]) == Discriminator(rules, entries[i]) {
      EntryAt(rules, entries, sensitive, i);
    }
  }

  /**
   Sanitizing twice is sanitizing once in the stronger of the two contexts. With equal contexts
   this is idempotence; with different ones, absorption in either order.
   */
  lemma {:induction false} SanitizeTwice(rules: Rules, value: Value, first: bool, second: bool)
    requires Stable(rules)
    ensures Sanitize(rules, Sanitize(rules, value, first), second) == Sanitize(rules, value, first || second)
    decreases value
  {
    match value {
      case Text(_) =>
      case Scalar(_) =>
      case List(items) =>
        var once := SanitizeItems(rules, items, first);
        var twice, both := SanitizeItems(rules, once, second), SanitizeItems(rules, items, first || second);
        forall i | 0 <= i < |items| ensures twice[i] == both[i] {
          ItemAt(rules, items, first, i);
          ItemAt(rules, once, second, i);
          ItemAt(rules, items, first || second, i);
          SanitizeTwice(rules, items[i], first, second);
        }
        assert twice == both;
      case Mapping(entries) =>
        var a, b := first || Discriminates(rules, entries), second || Discriminates(rules, entries);
        var once := SanitizeEntries(rules, entries, a);
        DiscriminatesStill(rules, entries, a);
        var twice, both := SanitizeEntries(rules, once, b), SanitizeEntries(rules, entries, a || b);
        forall i | 0 <= i < |entries| ensures twice[i] == both[i] {
          EntryAt(rules, entries, a, i);
          EntryAt(rules, once, b, i);
          EntryAt(rules, entries, a || b, i);
          var key := entries[i].key;
          SanitizeTwice(rules, entries[i].value, a || rules.contextKey(key), b || rules.contextKey(key));
        }
        assert twice == both;
    }
  }

  lemma ReportSanitizerLaws(lower: Lower, value: Value, first: bool, second: bool)
    ensures SanitizeReportEvidence(lower, SanitizeReportEvidence(lower, value, first), second)
            == SanitizeReportEvidence(lower, value, first || second)
  {
    BothRuleSetsAreStable(lower);
    SanitizeTwice(ReportRules(lower), value, first, second);
  }

  lemma OzonSanitizerLaws(lower: Lower, value: Value, first: bool, second: bool)
    ensures SanitizeOzonEvidence(lower, SanitizeOzonEvidence(lower, value, first), second)
            == SanitizeOzonEvidence(lower, value, first || second)
  {
    BothRuleSetsAreStable(lower);
    SanitizeTwice(OzonRules(lower), value, first, second);
  }

  /** A key whose value is redacted, in a mapping that is sensitive or not. */
  predicate RedactsKey(rules: Rules, key: string, sensitive: bool) {
    rules.redactKey(key) || (sensitive && rules.associatedKey(key))
  }

  /**
   out is value with some entry values replaced by REDACTED: same keys, same order, same leaves. An entry is replaced
   only under a key that calls for it, or under an associated key in a sensitive mapping.
   */
  ghost predicate KeepsStructure(rules: Rules, value: Value, out: Value, sensitive: bool) {
    match value
    case Text(_) => out == value
    case Scalar(_) => out == value
    case List(items) =>
      && out.List? && |out.items| == |items|
      && forall i :: 0 <= i < |items| ==> KeepsStructure(rules, items[i], out.items[i], sensitive)
    case Mapping(entries) =>
      var inner := sensitive || Discriminates(rules, entries);
      && out.Mapping? && |out.entries| == |entries|
      && forall i :: 0 <= i < |entries| ==>
           var Entry(key, item) := entries[i];
           && out.entries[i].key == key
           && if RedactsKey(rules, key, inner) then out.entries[i].value == REDACTED
              else KeepsStructure(rules, item, out.entries[i].value, inner || rules.contextKey(key))
  }

  lemma {:induction false} StructureIsKept(rules: Rules, value: Value, sensitive: bool)
    ensures KeepsStructure(rules, value, Sanitize(rules, value, sensitive), sensitive)
    decreases value
  {
    match value {
      case Text(_) =>
      case Scalar(_) =>
      case List(items) =>
        var out := SanitizeItems(rules, items, sensitive);
        forall i | 0 <= i < |items| ensures KeepsStructure(rules, items[i], out[i], sensitive) {
          ItemAt(rules, items, sensitive, i);
          StructureIsKept(rules, items[i], sensitive);
        }
      case Mapping(entries) =>
        var inner := sensitive || Discriminates(rules, entries);
        var out := SanitizeEntries(rules, entries, inner);
        forall i | 0 <= i < |entries|
          ensures out[i].key == entries[i].key
          ensures if RedactsKey(rules, entries[i].key, inner) then out[i].value == REDACTED
                  else KeepsStructure(rules, entries[i].value, out[i].value, inner || rules.contextKey(entries[i].key))
        {
          EntryAt(rules, entries, inner, i);
          StructureIsKept(rules, entries[i].value, inner || rules.contextKey(entries[i].key));
        }
    }
  }

  /** Nothing that must be redacted is left: stated without the sanitizer. */
  ghost predicate Clean(rules: Rules, value: Value, sensitive: bool) {
    match value
    case Text(_) => true
    case Scalar(_) => true
    case List(items) => forall i :: 0 <= i < |items| ==> Clean(rules, items[i], sensitive)
    case Mapping(entries) =>
      var inner := sensitive || Discriminates(rules, entries);
      forall i :: 0 <= i < |entries| ==>
        var Entry(key, item) := entries[i];
        if RedactsKey(rules, key, inner) then item == REDACTED
        else Clean(rules, item, inner || rules.contextKey(key))
  }

  /** The sanitizer changes a value exactly when something in it must be redacted. */
  lemma {:induction false} UnchangedIffClean(rules: Rules, value: Value, sensitive: bool)
    ensures Sanitize(rules, value, sensitive) == value <==> Clean(rules, value, sensitive)
    decreases value
  {
    match value {
      case Text(_) =>
      case Scalar(_) =>
      case List(items) =>
        var out := SanitizeItems(rules, items, sensitive);
        forall i | 0 <= i < |items| ensures out[i] == items[i] <==> Clean(rules, items[i], sensitive) {
          ItemAt(rules, items, sensitive, i);
          UnchangedIffClean(rules, items[i], sensitive);
        }
        assert out == items <==> forall i :: 0 <= i < |items| ==> out[i] == items[i];
      case Mapping(entries) =>
        var inner := sensitive || Discriminates(rules, entries);
        var out := SanitizeEntries(rules, entries, inner);
        forall i | 0 <= i < |entries|
          ensures out[i] == entries[i] <==>
            var Entry(key, item) := entries[i];
            if RedactsKey(rules, key, inner) then item == REDACTED
            else Clean(rules, item, inner || rules.contextKey(key))
        {
          EntryAt(rules, entries, inner, i);
          UnchangedIffClean(rules, entries[i].value, inner || rules.contextKey(entries[i].key));
        }
        assert out == entries <==> forall i :: 0 <= i < |entries| ==> out[i] == entries[i];
    }
  }

  /** So the output is clean, in the context it was made for. */
  lemma SanitizedIsClean(rules: Rules, value: Value, sensitive: bool)
    requires Stable(rules)
    ensures Clean(rules, Sanitize(rules, value, sensitive), sensitive)
  {
    SanitizeTwice(rules, value, sensitive, sensitive);
    UnchangedIffClean(rules, Sanitize(rules, value, sensitive), sensitive);
  }

  // ---------- What each sanitizer redacts, spelled out ----------

  /** Compacting keeps the lower-case letters and digits, in their order, and nothing else. */
  lemma {:induction false} KeptOfJoin(a: string, b: string)
    ensures KeepAlphanumeric(a + b) == KeepAlphanumeric(a) + KeepAlphanumeric(b)
  {
    if a == "" {
      assert a + b == b;
    } else {
      KeptOfJoin(a[1..], b);
      assert (a + b)[1..] == a[1..] + b && (a + b)[0] == a[0];
      var first := if 'a' <= a[0] <= 'z' || '0' <= a[0] <= '9' then [a[0]] else [];
      var rest, last := KeepAlphanumeric(a[1..]), KeepAlphanumeric(b);
      assert first + (rest + last) == (first + rest) + last;
    }
  }

  predicate Plain(c: char) {
    'a' <= c <= 'z' || '0' <= c <= '9'
  }

  /** One character is kept exactly when it is plain; with the law of joins this fixes every text. */
  lemma KeptOfOne(c: char)
    ensures KeepAlphanumeric([c]) == if Plain(c) then [c] else ""
  {
    assert [c][1..] == "";
    assert KeepAlphanumeric("") == "";
  }

  lemma {:induction false} KeptArePlain(s: string)
    ensures forall i :: 0 <= i < |KeepAlphanumeric(s)| ==> Plain(KeepAlphanumeric(s)[i])
  {
    if s != "" {
      KeptArePlain(s[1..]);
    }
  }

  /** What a mapping's entry becomes: redacted or read on, in a context that a discriminator anywhere in it decides. */
  lemma EntryBecomes(rules: Rules, entries: seq<Entry>, sensitive: bool, i: nat)
    requires i < |entries|
    ensures var out := Sanitize(rules, Mapping(entries), sensitive);
            var inner := sensitive || exists j :: 0 <= j < |entries| && Discriminator(rules, entries[j]);
            var Entry(key, item) := entries[i];
            && out.Mapping? && |out.entries| == |entries| && out.entries[i].key == key
            && out.entries[i].value ==
                 if rules.redactKey(key) || (inner && rules.associatedKey(key)) then REDACTED
                 else Sanitize(rules, item, inner || rules.contextKey(key))
  {
    EntryAt(rules, entries, sensitive || Discriminates(rules, entries), i);
  }

  predicate MarkOrKiz(compact: string) {
    StartsWith(compact, "cis") || StartsWith(compact, "kiz") || StartsWith(compact, "sgtin")
    || StartsWith(compact, "marking") || compact == "mark" || compact == "marks"
  }

  /** Keys the report sanitizer always redacts. */
  predicate ReportSecretKey(compact: string) {
    || MarkOrKiz(compact) || StartsWith(compact, "apikey") || StartsWith(compact, "token")
    || compact in {"authorization", "bearer", "machinetoken", "pin", "privatekey", "signature"}
  }

  /** Kinds that make a mapping sensitive for it. */
  predicate ReportSecretKind(compact: string) {
    compact in {
      "cis", "cises", "kiz", "kizes", "sgtin", "sgtins", "mark", "marks", "marking", "markingcode", "apikey",
      "authorization", "bearer", "token", "machinetoken", "pin", "privatekey", "signature"}
  }

  /** Keys the Ozon sanitizer always redacts. */
  predicate OzonSecretKey(compact: string) {
    || MarkOrKiz(compact) || compact == "fullmarking" || compact == "fullmarkings"
    || EndsWith(compact, "apikey") || EndsWith(compact, "secret") || EndsWith(compact, "token")
    || compact in {"authorization", "privatekey", "pin", "signature"}
  }

  lemma WordStarts()
    ensures "cis" <= "cises" && "kiz" <= "kizes" && "sgtin" <= "sgtins" && "marking" <= "markings"
    ensures "marking" <= "markingcode" && "marking" <= "markingcodes"
  {
    assert "cises"[..3] == "cis" && "kizes"[..3] == "kiz" && "sgtins"[..5] == "sgtin" && "markings"[..7] == "marking";
    assert "markingcode"[..7] == "marking" && "markingcodes"[..7] == "marking";
  }

  lemma WordEnds()
    ensures EndsWith("apikey", "apikey") && EndsWith("secret", "secret") && EndsWith("rawsecret", "secret")
    ensures EndsWith("clientsecret", "secret") && EndsWith("token", "token") && EndsWith("accesstoken", "token")
  {
    assert "rawsecret"[3..] == "secret" && "clientsecret"[6..] == "secret" && "accesstoken"[6..] == "token";
  }

  lemma ReportKeysIff(compact: string)
    ensures ReportRedacts(compact) <==> ReportSecretKey(compact)
  {
    WordStarts();
  }

  lemma OzonKeysIff(compact: string)
    ensures OzonSecret(compact) || OzonDirect(compact) <==> OzonSecretKey(compact)
  {
    WordStarts();
    WordEnds();
  }

  /** A text under key, type, kind, name or field that names a secret kind, wherever it stands in the mapping. */
  ghost predicate SaysReportKind(lower: Lower, entries: seq<Entry>) {
    exists j :: 0 <= j < |entries| && entries[j].value.Text?
      && Compact(lower, entries[j].key) in {"key", "type", "kind", "name", "field"}
      && ReportSecretKind(Compact(lower, entries[j].value.text))
  }

  lemma ReportKindIff(lower: Lower, entries: seq<Entry>)
    ensures SaysReportKind(lower, entries) <==>
              exists j :: 0 <= j < |entries| && Discriminator(ReportRules(lower), entries[j])
  {
    hide Compact;
    assert forall j :: 0 <= j < |entries| ==>
      (Discriminator(ReportRules(lower), entries[j]) <==>
         entries[j].value.Text? && DiscriminatorField(Compact(lower, entries[j].key))
         && ReportDirect(Compact(lower, entries[j].value.text)));
  }

  /** The report sanitizer on a mapping. */
  lemma ReportEntryBecomes(lower: Lower, entries: seq<Entry>, sensitive: bool, i: nat)
    requires i < |entries|
    ensures var out := SanitizeReportEvidence(lower, Mapping(entries), sensitive);
            var inner, compact := sensitive || SaysReportKind(lower, entries), Compact(lower, entries[i].key);
            && out.Mapping? && |out.entries| == |entries| && out.entries[i].key == entries[i].key
            && out.entries[i].value ==
                 if ReportSecretKey(compact) || (inner && compact in {"value", "values", "data", "codes", "code"})
                 then REDACTED
                 else SanitizeReportEvidence(lower, entries[i].value, inner)
  {
    hide Compact, Sanitize, ReportRedacts, ReportSecretKey, SaysReportKind;
    EntryBecomes(ReportRules(lower), entries, sensitive, i);
    ReportKindIff(lower, entries);
    ReportKeysIff(Compact(lower, entries[i].key));
  }

  predicate OzonSecretKind(compact: string) {
    MarkOrKiz(compact) || compact == "fullmarking" || compact == "fullmarkings"
  }

  lemma OzonKindsIff(compact: string)
    ensures OzonDirect(compact) <==> OzonSecretKind(compact)
  {
    WordStarts();
  }

  ghost predicate SaysOzonKind(lower: Lower, entries: seq<Entry>) {
    exists j :: 0 <= j < |entries| && entries[j].value.Text?
      && Compact(lower, entries[j].key) in {"key", "type", "kind", "name", "field"}
      && OzonSecretKind(Compact(lower, entries[j].value.text))
  }

  lemma OzonKindIff(lower: Lower, entries: seq<Entry>)
    ensures SaysOzonKind(lower, entries) <==>
              exists j :: 0 <= j < |entries| && Discriminator(OzonRules(lower), entries[j])
  {
    hide Compact, OzonDirect, OzonSecretKind;
    forall j | 0 <= j < |entries| && entries[j].value.Text?
      ensures OzonDirect(Compact(lower, entries[j].value.text)) <==>
                OzonSecretKind(Compact(lower, entries[j].value.text))
    {
      OzonKindsIff(Compact(lower, entries[j].value.text));
    }
    assert forall j :: 0 <= j < |entries| ==>
      (Discriminator(OzonRules(lower), entries[j]) <==>
         entries[j].value.Text? && DiscriminatorField(Compact(lower, entries[j].key))
         && OzonDirect(Compact(lower, entries[j].value.text)));
  }

  /** The Ozon sanitizer on a mapping; what an exemplar holds is read in the sensitive context. */
  lemma OzonEntryBecomes(lower: Lower, entries: seq<Entry>, sensitive: bool, i: nat)
    requires i < |entries|
    ensures var out := SanitizeOzonEvidence(lower, Mapping(entries), sensitive);
            var inner, compact := sensitive || SaysOzonKind(lower, entries), Compact(lower, entries[i].key);
            && out.Mapping? && |out.entries| == |entries| && out.entries[i].key == entries[i].key
            && out.entries[i].value ==
                 if OzonSecretKey(compact) || (inner && compact in {"value", "values", "data", "code", "codes"})
                 then REDACTED
                 else SanitizeOzonEvidence(lower, entries[i].value, inner || compact in {"exemplar", "exemplars"})
  {
    hide Compact, Sanitize, OzonSecret, OzonDirect, OzonSecretKey, SaysOzonKind, OzonAssociated;
    EntryBecomes(OzonRules(lower), entries, sensitive, i);
    OzonKindIff(lower, entries);
    OzonKeysIff(Compact(lower, entries[i].key));
    OzonAssociatedIff(Compact(lower, entries[i].key));
  }

  lemma OzonAssociatedIff(compact: string)
    ensures OzonAssociated(compact) ==>
              compact in {"value", "values", "data", "code", "codes"} || OzonSecretKey(compact)
    ensures compact in {"value", "values", "data", "code", "codes"} ==> OzonAssociated(compact)
  {
    WordStarts();
  }
}
