/**
 What the guard of the typed EDO reads refuses: an exact reading of every target it accepts, and the
 payload each accepted target stands for.
 Models src/wbcz/edo_lite.py, is_allowed_edo_read_target.
 */
module EdoGuardLaws {
  import opened Common
  import opened Percent
  import opened EdoReads
  import opened EdoReadLaws

  // ---------- Paths as segments ----------

  /** str.split("/"). */
  function Split(path: string): seq<string>
    decreases |path|
  {
    var (head, tail) := Partition(path, '/');
    PartitionShrinks(path, '/');
    [head] + if tail.Some? then Split(tail.value) else []
  }

  ghost predicate AllFree(segments: seq<string>) {
    forall i :: 0 <= i < |segments| ==> Free(segments[i], '/')
  }

  lemma {:induction false} SplitAfter(head: string, segments: seq<string>)
    requires Free(head, '/') && AllFree(segments)
    ensures Split(head + PathText(segments)) == [head] + segments
    decreases |segments|
  {
    hide Free;
    if segments == [] {
      assert head + PathText(segments) == head;
      PartitionNone(head, '/');
    } else {
      var rest := segments[0] + PathText(segments[1..]);
      assert head + PathText(segments) == head + ['/'] + rest;
      PartitionAt(head, '/', rest);
      SplitAfter(segments[0], segments[1..]);
      assert segments == [segments[0]] + segments[1..];
    }
  }

  lemma {:induction false} PartitionParts(s: string, c: char)
    ensures var (head, tail) := Partition(s, c);
            Free(head, c) && s == head + if tail.Some? then [c] + tail.value else ""
    ensures forall d :: Free(s, d) ==> Free(Partition(s, c).0, d)
    ensures forall d :: Free(s, d) && Partition(s, c).1.Some? ==> Free(Partition(s, c).1.value, d)
  {
    if s != "" && s[0] != c {
      PartitionParts(s[1..], c);
      assert s == [s[0]] + s[1..];
      forall d | Free(s, d) ensures Free(s[1..], d) {
        assert forall i :: 0 <= i < |s[1..]| ==> s[1..][i] == s[i + 1];
      }
    }
  }

  lemma {:induction false} SplitParts(path: string)
    ensures Split(path) != [] && AllFree(Split(path)) && path == Split(path)[0] + PathText(Split(path)[1..])
    decreases |path|
  {
    hide Free;
    var (head, tail) := Partition(path, '/');
    PartitionParts(path, '/');
    if tail.Some? {
      PartitionShrinks(path, '/');
      SplitParts(tail.value);
      var rest := Split(tail.value);
      assert Split(path)[1..] == rest && rest == [rest[0]] + rest[1..];
    } else {
      assert PathText([]) == "";
      assert Split(path)[1..] == [];
    }
  }

  /** Splitting tells exactly which segments a path is made of. */
  lemma SplitIff(path: string, segments: seq<string>)
    ensures Split(path) == [""] + segments <==> path == PathText(segments) && AllFree(segments)
  {
    hide Split, PathText, Free;
    SplitParts(path);
    if path == PathText(segments) && AllFree(segments) {
      assert "" + PathText(segments) == path && Free("", '/') by { EmptyIsFree('/'); }
      SplitAfter("", segments);
    }
    if Split(path) == [""] + segments {
      assert Split(path)[1..] == segments;
      assert "" + PathText(segments) == path;
      assert forall i :: 0 <= i < |segments| ==> segments[i] == Split(path)[i + 1];
    }
  }

  lemma EmptyIsFree(c: char)
    ensures Free("", c)
  {
  }

  lemma {:induction false} PathTextConcat(a: seq<string>, b: seq<string>)
    ensures PathText(a + b) == PathText(a) + PathText(b)
  {
    if a == [] {
      assert a + b == b;
    } else {
      PathTextConcat(a[1..], b);
      assert (a + b)[1..] == a[1..] + b;
    }
  }

  // ---------- The path conforms to the audit label ----------

  predicate IsHole(segment: string) {
    segment != "" && segment[0] == '{'
  }

  /** The fixed segments where the label has them, one nonempty segment for each brace, nothing before or after. */
  ghost predicate Instance(path: string, labels: seq<string>) {
    var segments := Split(path);
    && |segments| == |labels| + 1 && segments[0] == ""
    && forall i :: 0 <= i < |labels| ==>
         if IsHole(labels[i]) then segments[i + 1] != "" else segments[i + 1] == labels[i]
  }

  const HOLE := "{}"

  /** The guard's pattern, flattened; every id is a hole. */
  function Flat(shape: Shape): seq<string> {
    match shape
    case InnShape(prefix) => prefix + [HOLE]
    case ListShape(path) => path
    case IdShape(prefix, suffix) => prefix + [HOLE] + suffix
    case TwoIdsShape(prefix, middle, suffix) => prefix + [HOLE] + (middle + [HOLE] + suffix)
    case FixedShape(path) => path
    case FileShape(path) => path
    case NoShape => []
  }

  ghost predicate SameLabel(a: seq<string>, b: seq<string>) {
    |a| == |b| && forall i :: 0 <= i < |a| ==> (IsHole(a[i]) && IsHole(b[i])) || a[i] == b[i]
  }

  lemma OneHole(prefix: seq<string>, hole: string, suffix: seq<string>)
    requires IsHole(hole)
    ensures SameLabel(prefix + [HOLE] + suffix, prefix + ([hole] + suffix))
  {
  }

  lemma TwoHoles(prefix: seq<string>, hole: string, middle: seq<string>, other: string, suffix: seq<string>)
    requires IsHole(hole) && IsHole(other)
    ensures SameLabel(prefix + [HOLE] + (middle + [HOLE] + suffix), prefix + ([hole] + (middle + ([other] + suffix))))
  {
    hide SameLabel;
    OneHole(middle, other, suffix);
    OneHole(prefix, hole, middle + [HOLE] + suffix);
    SameAfter(prefix + [hole], middle + [HOLE] + suffix, middle + ([other] + suffix));
    assert prefix + ([hole] + (middle + [HOLE] + suffix)) == prefix + [hole] + (middle + [HOLE] + suffix);
    assert prefix + ([hole] + (middle + ([other] + suffix))) == prefix + [hole] + (middle + ([other] + suffix));
    SameTransitive(prefix + [HOLE] + (middle + [HOLE] + suffix), prefix + [hole] + (middle + [HOLE] + suffix),
                   prefix + [hole] + (middle + ([other] + suffix)));
  }

  lemma SameAfter(prefix: seq<string>, a: seq<string>, b: seq<string>)
    requires SameLabel(a, b)
    ensures SameLabel(prefix + a, prefix + b)
  {
  }

  lemma SameItself(a: seq<string>)
    ensures SameLabel(a, a)
  {
  }

  lemma SameTransitive(a: seq<string>, b: seq<string>, c: seq<string>)
    requires SameLabel(a, b) && SameLabel(b, c)
    ensures SameLabel(a, c)
  {
  }

  lemma Holes()
    ensures IsHole("{inn}") && IsHole("{documentId}") && IsHole("{doc_id}") && IsHole("{event_id}")
    ensures IsHole("{receiptType}") && IsHole(HOLE)
  {
  }

  lemma IdLabelsAgree(job: JobType)
    requires GuardShape(job).IdShape?
    ensures SameLabel(Flat(GuardShape(job)), AuditSegments(job))
  {
    hide IsHole, SameLabel;
    DirectionSegments();
    Holes();
    var IdShape(prefix, suffix) := GuardShape(job);
    var hole := if prefix[0] == "elk" then "{documentId}" else "{doc_id}";
    OneHole(prefix, hole, suffix);
    assert AuditSegments(job) == prefix + ([hole] + suffix);
  }

  lemma TwoIdsLabelsAgree(job: JobType)
    requires GuardShape(job).TwoIdsShape?
    ensures SameLabel(Flat(GuardShape(job)), AuditSegments(job))
  {
    hide IsHole, SameLabel;
    DirectionSegments();
    Holes();
    var TwoIdsShape(prefix, middle, suffix) := GuardShape(job);
    var other := if job == EDO_EVENT_CONTENT then "{event_id}" else "{receiptType}";
    TwoHoles(prefix, "{doc_id}", middle, other, suffix);
    assert AuditSegments(job) == prefix + (["{doc_id}"] + (middle + ([other] + suffix)));
  }

  lemma FixedLabelsAgree(job: JobType)
    requires GuardShape(job).ListShape? || GuardShape(job).FixedShape? || GuardShape(job).FileShape?
    ensures SameLabel(Flat(GuardShape(job)), AuditSegments(job))
  {
    hide IsHole, SameLabel;
    DirectionSegments();
    assert AuditSegments(job) == GuardShape(job).path;
    SameItself(GuardShape(job).path);
  }

  lemma InnLabelsAgree(job: JobType)
    requires GuardShape(job).InnShape?
    ensures SameLabel(Flat(GuardShape(job)), AuditSegments(job))
  {
    hide IsHole, SameLabel;
    Holes();
    OneHole(GuardShape(job).prefix, "{inn}", []);
    assert AuditSegments(job) == GuardShape(job).prefix + (["{inn}"] + []);
    assert Flat(GuardShape(job)) == GuardShape(job).prefix + [HOLE] + [];
  }

  /** Pattern and audit label, written apart, agree for every job type. */
  lemma LabelsAgree(job: JobType)
    requires job != UNSUPPORTED
    ensures SameLabel(Flat(GuardShape(job)), AuditSegments(job))
  {
    hide SameLabel, Flat, AuditSegments;
    match GuardShape(job)
    case InnShape(_) => InnLabelsAgree(job);
    case IdShape(_, _) => IdLabelsAgree(job);
    case TwoIdsShape(_, _, _) => TwoIdsLabelsAgree(job);
    case ListShape(_) => FixedLabelsAgree(job);
    case FixedShape(_) => FixedLabelsAgree(job);
    case FileShape(_) => FixedLabelsAgree(job);
  }

  lemma SameInstance(path: string, a: seq<string>, b: seq<string>)
    requires SameLabel(a, b)
    ensures Instance(path, a) <==> Instance(path, b)
  {
    hide Split;
  }

  /** Fixed segments hold no slash and do not look like a hole. */
  ghost predicate Plain(segments: seq<string>) {
    AllFree(segments) && forall i :: 0 <= i < |segments| ==> !IsHole(segments[i])
  }

  lemma PlainSegments(segments: seq<string>)
    requires SafeSegments(segments) && forall i :: 0 <= i < |segments| ==> !IsHole(segments[i])
    ensures Plain(segments)
  {
    forall i | 0 <= i < |segments| ensures Free(segments[i], '/') {
      assert SafeSegment(segments[i]);
    }
  }

  lemma FixedIff(path: string, segments: seq<string>)
    requires Plain(segments)
    ensures path == PathText(segments) <==> Instance(path, segments)
  {
    hide Split, PathText, Free;
    SplitIff(path, segments);
    if Instance(path, segments) {
      assert Split(path) == [""] + segments;
    }
  }

  ghost predicate Marked(path: string) {
    Free(path, '?') && Free(path, '#')
  }

  lemma {:induction false} SegmentsStayFree(path: string, d: char)
    requires Free(path, d)
    ensures forall i :: 0 <= i < |Split(path)| ==> Free(Split(path)[i], d)
    decreases |path|
  {
    hide Free;
    PartitionParts(path, '/');
    PartitionShrinks(path, '/');
    if Partition(path, '/').1.Some? {
      SegmentsStayFree(Partition(path, '/').1.value, d);
    }
  }

  lemma FixedPart(path: string, labels: seq<string>, from: nat, part: seq<string>)
    requires Instance(path, labels) && Plain(part)
    requires from + |part| <= |labels| && labels[from..from + |part|] == part
    ensures Split(path)[from + 1..from + 1 + |part|] == part
  {
    hide Split;
    forall i | 0 <= i < |part| ensures Split(path)[from + 1 + i] == part[i] {
      assert labels[from + i] == labels[from..from + |part|][i] == part[i];
    }
  }

  lemma HolePart(path: string, labels: seq<string>, i: nat)
    requires Instance(path, labels) && i < |labels| && labels[i] == HOLE
    ensures Split(path)[i + 1] != ""
  {
    hide Split;
    Holes();
  }

  lemma IdIff(path: string, prefix: seq<string>, suffix: seq<string>)
    requires Marked(path) && Plain(prefix) && Plain(suffix)
    ensures MatchesId(path, prefix, suffix) <==> Instance(path, prefix + [HOLE] + suffix)
  {
    hide Split, PathText, Free;
    var labels := prefix + [HOLE] + suffix;
    if MatchesId(path, prefix, suffix) {
      var id :| SegmentText(id) && path == PathText(prefix) + "/" + id + PathText(suffix);
      var segments := prefix + [id] + suffix;
      OneSegment(id);
      PathTextConcat(prefix, [id]);
      PathTextConcat(prefix + [id], suffix);
      assert path == PathText(segments);
      SplitIff(path, segments);
    }
    if Instance(path, labels) {
      var segments := Split(path)[1..];
      var id := segments[|prefix|];
      SplitParts(path);
      SegmentsStayFree(path, '?');
      SegmentsStayFree(path, '#');
      FixedPart(path, labels, 0, prefix);
      HolePart(path, labels, |prefix|);
      FixedPart(path, labels, |prefix| + 1, suffix);
      assert segments[..|prefix|] == prefix && segments[|prefix| + 1..] == suffix;
      assert segments == prefix + [id] + suffix;
      OneSegment(id);
      PathTextConcat(prefix, [id]);
      PathTextConcat(prefix + [id], suffix);
      assert Split(path)[|prefix| + 1] == id && SegmentText(id);
      assert path == PathText(prefix) + "/" + id + PathText(suffix);
    }
  }

  lemma OneSegment(id: string)
    ensures PathText([id]) == "/" + id
  {
    assert [id][1..] == [];
  }

  lemma InnIff(u: Unicode, path: string, prefix: seq<string>)
    requires Standard(u) && Marked(path) && Plain(prefix)
    ensures MatchesInn(u, path, prefix) <==>
              Instance(path, prefix + [HOLE]) && InnText(u, Split(path)[|prefix| + 1])
  {
    hide Split, PathText, Free, AllDecimal;
    if MatchesInn(u, path, prefix) {
      var inn :| InnText(u, inn) && path == PathText(prefix) + "/" + inn;
      OneSegment(inn);
      PathTextConcat(prefix, [inn]);
      DecimalIsFree(u, inn);
      SplitIff(path, prefix + [inn]);
    }
    if Instance(path, prefix + [HOLE]) && InnText(u, Split(path)[|prefix| + 1]) {
      var segments := Split(path)[1..];
      SplitParts(path);
      FixedPart(path, prefix + [HOLE], 0, prefix);
      assert segments[..|prefix|] == prefix;
      assert segments == prefix + [segments[|prefix|]];
      OneSegment(segments[|prefix|]);
      PathTextConcat(prefix, [segments[|prefix|]]);
    }
  }

  lemma DecimalIsFree(u: Unicode, inn: string)
    requires Standard(u) && AllDecimal(u, inn)
    ensures Free(inn, '/')
  {
  }

  lemma TwoIdsConform(path: string, prefix: seq<string>, first: string, middle: seq<string>, second: string,
                      suffix: seq<string>)
    requires SegmentText(first) && SegmentText(second) && Plain(prefix) && Plain(middle) && Plain(suffix)
    requires path == PathText(prefix) + "/" + first + (PathText(middle) + "/" + second + PathText(suffix))
    ensures Instance(path, prefix + [HOLE] + (middle + [HOLE] + suffix))
  {
    hide Split, PathText, Free;
    TwoIdsText(prefix, first, middle, second, suffix);
    SplitIff(path, prefix + [first] + (middle + [second] + suffix));
  }

  lemma TwoIdsMatch(path: string, prefix: seq<string>, middle: seq<string>, suffix: seq<string>)
    requires Marked(path) && Plain(prefix) && Plain(middle) && Plain(suffix)
    requires Instance(path, prefix + [HOLE] + (middle + [HOLE] + suffix))
    ensures MatchesTwoIds(path, prefix, middle, suffix)
  {
    hide Split, PathText, Free, Instance, Plain;
    var labels := prefix + [HOLE] + (middle + [HOLE] + suffix);
    var p, m := |prefix|, |middle|;
    InstanceLength(path, labels);
    var segments := Split(path)[1..];
    var first, second := segments[p], segments[p + 1 + m];
    SplitParts(path);
    SegmentsStayFree(path, '?');
    SegmentsStayFree(path, '#');
    FixedPart(path, labels, 0, prefix);
    HolePart(path, labels, p);
    FixedPart(path, labels, p + 1, middle);
    HolePart(path, labels, p + 1 + m);
    FixedPart(path, labels, p + m + 2, suffix);
    assert segments[..p] == prefix && segments[p + 1..p + 1 + m] == middle && segments[p + m + 2..] == suffix;
    assert segments == prefix + [first] + (middle + [second] + suffix);
    TwoIdsText(prefix, first, middle, second, suffix);
    assert Split(path)[p + 1] == first && Split(path)[p + m + 2] == second;
  }

  lemma InstanceLength(path: string, labels: seq<string>)
    requires Instance(path, labels)
    ensures |Split(path)| == |labels| + 1 && Split(path)[0] == ""
  {
    hide Split;
  }

  lemma TwoIdsIff(path: string, prefix: seq<string>, middle: seq<string>, suffix: seq<string>)
    requires Marked(path) && Plain(prefix) && Plain(middle) && Plain(suffix)
    ensures MatchesTwoIds(path, prefix, middle, suffix) <==>
              Instance(path, prefix + [HOLE] + (middle + [HOLE] + suffix))
  {
    hide PathText, Instance, Plain, SegmentText, Marked;
    if MatchesTwoIds(path, prefix, middle, suffix) {
      var first, second :| SegmentText(first) && SegmentText(second)
        && path == PathText(prefix) + "/" + first + (PathText(middle) + "/" + second + PathText(suffix));
      TwoIdsConform(path, prefix, first, middle, second, suffix);
    }
    if Instance(path, prefix + [HOLE] + (middle + [HOLE] + suffix)) {
      TwoIdsMatch(path, prefix, middle, suffix);
    }
  }

  lemma TwoIdsText(prefix: seq<string>, first: string, middle: seq<string>, second: string, suffix: seq<string>)
    ensures PathText(prefix + [first] + (middle + [second] + suffix)) ==
              PathText(prefix) + "/" + first + (PathText(middle) + "/" + second + PathText(suffix))
  {
    hide PathText;
    OneSegment(first);
    OneSegment(second);
    PathTextConcat(prefix + [first], middle + [second] + suffix);
    PathTextConcat(prefix, [first]);
    PathTextConcat(middle + [second], suffix);
    PathTextConcat(middle, [second]);
  }

  // ---------- The query ----------

  function RawQuery(text: Option<string>): seq<Field> {
    if text.Some? then ReadQuery(text.value) else []
  }

  /** A number as the guard writes it down: no sign, no leading zero, any decimal digits after the first. */
  ghost predicate IsNumber(u: Unicode, text: string) {
    text == "0" || (text != "" && '1' <= text[0] <= '9' && AllDecimal(u, text[1..]))
  }

  ghost predicate NumberFrom(u: Unicode, text: string, low: nat) {
    IsNumber(u, text) && Number(u, text) >= low
  }

  const LIST_NAMES := {
    "limit", "offset", "sortBy", "asc", "created_from", "created_to", "partner_inn", "partner_id", "status", "type",
    "folder", "product_group"}

  predicate DocumentedStatus(n: nat) {
    n <= 5 || 7 <= n <= 8 || 11 <= n <= 19 || 41 <= n <= 44 || 61 <= n <= 66
  }

  lemma DocumentedStatusIff(n: int)
    ensures n in KNOWN_EDO_RAW_STATUSES <==> n >= 0 && DocumentedStatus(n)
  {
  }

  /** What each field of a list query may say. */
  ghost predicate FieldFits(u: Unicode, name: string, text: string) {
    && name in LIST_NAMES
    && (name == "limit" ==> NumberFrom(u, text, 1))
    && (name in {"offset", "created_from", "created_to", "type"} ==> NumberFrom(u, text, 0))
    && (name == "sortBy" ==> text == "created_at")
    && (name == "asc" ==> text == "true" || text == "false")
    && (name == "partner_inn" ==> (|text| == 10 || |text| == 12) && AllDecimal(u, text))
    && (name == "partner_id" ==> text != "")
    && (name == "status" ==>
          IsNumber(u, text) && DocumentedStatus(Number(u, text)))
    && (name == "folder" ==> IsNumber(u, text) && Number(u, text) <= 8)
    && (name == "product_group" ==> IsNumber(u, text) && Number(u, text) == 1)
  }

  ghost predicate HasName(fields: seq<Field>, name: string) {
    exists i :: 0 <= i < |fields| && fields[i].0 == name
  }

  /** Only known names, each once and in range, the four the builder always prints among them. */
  ghost predicate ListConforms(u: Unicode, fields: seq<Field>) {
    && DistinctNames(fields)
    && (forall i :: 0 <= i < |fields| ==> FieldFits(u, fields[i].0, fields[i].1))
    && HasName(fields, "limit") && HasName(fields, "offset") && HasName(fields, "sortBy") && HasName(fields, "asc")
  }

  lemma NameOfKey(name: string)
    ensures KeyText(KeyOf(name)) == name
  {
  }

  lemma NumberOfZero(u: Unicode)
    requires Standard(u)
    ensures Number(u, "0") == 0
  {
    assert "0"[..0] == "";
  }

  lemma UintIff(u: Unicode, text: string)
    requires Standard(u)
    ensures Uint(u, text) == if IsNumber(u, text) then Number(u, text) else -1
  {
    hide Number;
    NumberOfZero(u);
  }

  lemma FieldFitsIff(u: Unicode, name: string, text: string)
    requires Standard(u)
    ensures FieldFits(u, name, text) <==> AllowedListKey(KeyOf(name)) && ListValueAllowed(u, KeyOf(name), text)
  {
    hide Uint, IsNumber, Number, AllDecimal, DocumentedStatus;
    UintIff(u, text);
    DocumentedStatusIff(Uint(u, text));
  }

  lemma {:induction false} ValueAmong(query: seq<KeyedField>, i: nat)
    requires i < |query|
    ensures query[i].1 in Values(query, query[i].0)
    ensures (exists j :: 0 <= j < |query| && j != i && query[j].0 == query[i].0) <==> |Values(query, query[i].0)| != 1
  {
    var rest, key := query[1..], query[i].0;
    if i > 0 {
      ValueAmong(rest, i - 1);
      assert forall j :: 0 <= j < |rest| ==> rest[j] == query[j + 1];
      if query[0].0 == key {
        assert exists j :: 0 <= j < |query| && j != i && query[j].0 == key;
      } else {
        var same := exists j :: 0 <= j < |rest| && j != i - 1 && rest[j].0 == key;
        if j :| 0 <= j < |query| && j != i && query[j].0 == key {
          assert rest[j - 1].0 == key;
        }
        if j :| 0 <= j < |rest| && j != i - 1 && rest[j].0 == key {
          assert query[j + 1].0 == key;
        }
      }
    } else {
      if Values(rest, key) != [] {
        var j := FieldOfValues(rest, key);
        assert query[j + 1].0 == key;
      }
      if j :| 0 <= j < |query| && j != 0 && query[j].0 == key {
        ValuesOfField(rest, j - 1);
      }
    }
  }

  lemma HasNameIff(fields: seq<Field>, name: string)
    ensures HasName(fields, name) <==> Values(Keyed(fields), KeyOf(name)) != []
  {
    var query := Keyed(fields);
    if i :| 0 <= i < |fields| && fields[i].0 == name {
      ValuesOfField(query, i);
    }
    if Values(query, KeyOf(name)) != [] {
      var i := FieldOfValues(query, KeyOf(name));
      NameOfKey(name);
      NameOfKey(fields[i].0);
    }
  }

  ghost predicate DistinctNames(fields: seq<Field>) {
    forall i, j :: 0 <= i < j < |fields| ==> fields[i].0 != fields[j].0
  }

  lemma SameKeyIff(a: string, b: string)
    ensures KeyOf(a) == KeyOf(b) <==> a == b
  {
    hide KeyOf, KeyText;
    NameOfKey(a);
    NameOfKey(b);
  }

  /** No other field has the name of field i. */
  ghost predicate Alone(fields: seq<Field>, i: nat)
    requires i < |fields|
  {
    forall j :: 0 <= j < |fields| && j != i ==> fields[j].0 != fields[i].0
  }

  lemma AloneIff(fields: seq<Field>, i: nat)
    requires i < |fields|
    ensures fields[i].1 in Values(Keyed(fields), KeyOf(fields[i].0))
    ensures Alone(fields, i) <==> |Values(Keyed(fields), KeyOf(fields[i].0))| == 1
  {
    hide Values, KeyOf;
    var query := Keyed(fields);
    ValueAmong(query, i);
    forall j | 0 <= j < |fields| ensures query[j].0 == query[i].0 <==> fields[j].0 == fields[i].0 {
      SameKeyIff(fields[j].0, fields[i].0);
    }
    if !Alone(fields, i) {
      var j :| 0 <= j < |fields| && j != i && fields[j].0 == fields[i].0;
      assert query[j].0 == query[i].0;
    }
  }

  lemma DistinctIffAlone(fields: seq<Field>)
    ensures DistinctNames(fields) <==> forall i :: 0 <= i < |fields| ==> Alone(fields, i)
  {
    if forall i :: 0 <= i < |fields| ==> Alone(fields, i) {
      forall i, j | 0 <= i < j < |fields| ensures fields[i].0 != fields[j].0 {
        assert Alone(fields, i);
      }
    }
  }

  /** parse_qs lists one value for every name exactly when no name comes twice; it is then the one given. */
  lemma SingleValuesIff(fields: seq<Field>)
    ensures DistinctNames(fields) <==>
              forall i :: 0 <= i < |fields| ==> |Values(Keyed(fields), KeyOf(fields[i].0))| == 1
    ensures forall i :: 0 <= i < |fields| && |Values(Keyed(fields), KeyOf(fields[i].0))| == 1 ==>
              Values(Keyed(fields), KeyOf(fields[i].0))[0] == fields[i].1
  {
    hide Values, KeyOf, Alone, DistinctNames, Keyed;
    DistinctIffAlone(fields);
    forall i | 0 <= i < |fields|
      ensures fields[i].1 in Values(Keyed(fields), KeyOf(fields[i].0))
      ensures Alone(fields, i) <==> |Values(Keyed(fields), KeyOf(fields[i].0))| == 1
    {
      AloneIff(fields, i);
    }
  }

  lemma FieldsFitIff(u: Unicode, fields: seq<Field>)
    requires Standard(u)
    ensures (forall i :: 0 <= i < |fields| ==> FieldFits(u, fields[i].0, fields[i].1)) <==>
              forall i :: 0 <= i < |fields| ==>
                AllowedListKey(KeyOf(fields[i].0)) && ListValueAllowed(u, KeyOf(fields[i].0), fields[i].1)
  {
    hide FieldFits, ListValueAllowed, AllowedListKey, KeyOf;
    forall i | 0 <= i < |fields|
      ensures FieldFits(u, fields[i].0, fields[i].1) <==>
                AllowedListKey(KeyOf(fields[i].0)) && ListValueAllowed(u, KeyOf(fields[i].0), fields[i].1)
    {
      FieldFitsIff(u, fields[i].0, fields[i].1);
    }
  }

  /** The guard's reading of a list query, spelled out on the names and texts. */
  lemma ListConformsIff(u: Unicode, fields: seq<Field>)
    requires Standard(u)
    ensures ListQueryAllowed(u, Keyed(fields)) <==> ListConforms(u, fields)
  {
    hide FieldFits, ListValueAllowed, AllowedListKey, Values, HasName, KeyOf;
    assert forall i :: 0 <= i < |fields| ==> Keyed(fields)[i].0 == KeyOf(fields[i].0);
    HasNameIff(fields, "limit");
    HasNameIff(fields, "offset");
    HasNameIff(fields, "sortBy");
    HasNameIff(fields, "asc");
    KeysOfFixedNames();
    SingleValuesIff(fields);
    FieldsFitIff(u, fields);
  }

  lemma KeysOfFixedNames()
    ensures KeyOf("limit") == Limit && KeyOf("offset") == Offset && KeyOf("sortBy") == SortBy && KeyOf("asc") == Asc
  {
  }

  // ---------- The guard as a whole ----------

  ghost predicate QueryFits(u: Unicode, job: JobType, fields: seq<Field>) {
    if IsListJob(job) then ListConforms(u, fields)
    else if job == EDO_GIS_PROCESSING then |fields| == 1 && fields[0].0 == "fileId" && fields[0].1 != ""
    else fields == []
  }

  /** Path and query as the documented endpoint of the job has them. */
  ghost predicate Conforms(u: Unicode, job: JobType, path: string, fields: seq<Field>) {
    && job != UNSUPPORTED && Instance(path, AuditSegments(job)) && QueryFits(u, job, fields)
    && (job == EDO_PARTICIPANT ==>
          && |Split(path)[6]| in {10, 12}
          && AllDecimal(u, Split(path)[6]))
  }

  lemma ShapesArePlain(job: JobType)
    ensures match GuardShape(job)
            case InnShape(prefix) => Plain(prefix)
            case ListShape(path) => Plain(path)
            case IdShape(prefix, suffix) => Plain(prefix) && Plain(suffix)
            case TwoIdsShape(prefix, middle, suffix) => Plain(prefix) && Plain(middle) && Plain(suffix)
            case FixedShape(path) => Plain(path)
            case FileShape(path) => Plain(path)
            case NoShape => true
  {
    hide SafeSegment, Plain, SafeSegments;
    ShapesAreSafe(job);
    match GuardShape(job)
    case InnShape(prefix) => PlainSegments(prefix);
    case ListShape(path) => PlainSegments(path);
    case IdShape(prefix, suffix) =>
      PlainSegments(prefix);
      PlainSegments(suffix);
    case TwoIdsShape(prefix, middle, suffix) =>
      PlainSegments(prefix);
      PlainSegments(middle);
      PlainSegments(suffix);
    case FixedShape(path) => PlainSegments(path);
    case FileShape(path) => PlainSegments(path);
    case NoShape =>
  }

  lemma FileNameIff(name: string)
    ensures KeyOf(name) == FileId <==> name == "fileId"
  {
    SameKeyIff(name, "fileId");
  }

  /** Pattern by pattern, the guard accepts exactly what conforms. */
  lemma PathAndQueryIff(u: Unicode, job: JobType, path: string, fields: seq<Field>)
    requires Standard(u) && Marked(path) && job != UNSUPPORTED
    ensures PathAndQueryAllowed(u, job, path, Keyed(fields)) <==> Conforms(u, job, path, fields)
  {
    hide Standard, Marked, MatchesId, MatchesTwoIds, MatchesInn;
    hide Instance, AuditSegments, ListConforms, ListQueryAllowed;
    hide PathText, Plain, Split, AllDecimal, SameLabel;
    LabelsAgree(job);
    SameInstance(path, Flat(GuardShape(job)), AuditSegments(job));
    ShapesArePlain(job);
    match GuardShape(job)
    case InnShape(prefix) => InnIff(u, path, prefix);
    case ListShape(expected) =>
      FixedIff(path, expected);
      ListConformsIff(u, fields);
    case IdShape(prefix, suffix) => IdIff(path, prefix, suffix);
    case TwoIdsShape(prefix, middle, suffix) => TwoIdsIff(path, prefix, middle, suffix);
    case FixedShape(expected) => FixedIff(path, expected);
    case FileShape(expected) =>
      FixedIff(path, expected);
      if |fields| == 1 {
        FileNameIff(fields[0].0);
      }
  }

  /** Nothing of a target is lost: it is path, query, tabs, at most an empty host and an empty fragment. */
  lemma UrlSplitRebuilds(target: string) returns (host: string, fragment: string)
    requires target != "" && target[0] == '/' && UrlSplit(target).Some?
    ensures var (path, query) := UrlSplit(target).value;
            && DropTabs(target) == host + path + (if query.Some? then "?" + query.value else "") + fragment
            && Marked(path)
    ensures host in {"", "//"} && fragment in {"", "#"}
  {
    var body;
    host, body := UrlSplitBody(target);
    fragment := BodyRebuilds(body);
    hide Marked, UrlSplit, DropTabs, Partition;
    var (path, query) := UrlSplit(target).value;
    Regroup(host, path, if query.Some? then "?" + query.value else "", fragment);
  }

  lemma Regroup(a: string, b: string, c: string, d: string)
    ensures a + (b + c + d) == a + b + c + d
  {
  }

  /** The text that is split at '#' and '?' is what follows an empty host. */
  lemma UrlSplitBody(target: string) returns (host: string, body: string)
    requires target != "" && target[0] == '/' && UrlSplit(target).Some?
    ensures DropTabs(target) == host + body && host in {"", "//"} && Partition(body, '#').1 in {None, Some("")}
    ensures UrlSplit(target) == Some(Partition(Partition(body, '#').0, '?'))
  {
    hide Free, DropTabs, Partition;
    var all := DropTabs(target);
    TabsKeepTheSlash(target);
    if |all| >= 2 && all[1] == '/' {
      host, body := "//", all[2..];
    } else {
      host, body := "", all;
    }
  }

  lemma BodyRebuilds(body: string) returns (fragment: string)
    requires Partition(body, '#').1 in {None, Some("")}
    ensures var (path, query) := Partition(Partition(body, '#').0, '?');
            body == path + (if query.Some? then "?" + query.value else "") + fragment && Marked(path)
    ensures fragment in {"", "#"}
  {
    hide Free, Partition;
    var (text, rest) := Partition(body, '#');
    PartitionParts(body, '#');
    PartitionParts(text, '?');
    fragment := if rest.Some? then "#" else "";
  }

  lemma TabsKeepTheSlash(target: string)
    requires target != "" && target[0] == '/'
    ensures DropTabs(target) != "" && DropTabs(target)[0] == '/'
  {
  }

  /** A target without tabs, fragment and leading double slash is split at its first question mark, and nowhere else. */
  lemma UrlSplitOfPlainTarget(target: string)
    requires target != "" && target[0] == '/' && Free(target, '\t') && Free(target, '#')
    requires |target| >= 2 ==> target[1] != '/'
    ensures UrlSplit(target) == Some(Partition(target, '?'))
  {
    FreeOfTabs(target);
    PartitionNone(target, '#');
  }

  lemma {:induction false} FreeOfTabs(s: string)
    requires Free(s, '\t')
    ensures DropTabs(s) == s
  {
    if s != "" {
      assert forall i :: 0 <= i < |s[1..]| ==> s[1..][i] == s[i + 1];
      FreeOfTabs(s[1..]);
      assert s == [s[0]] + s[1..];
    }
  }

  /**
   The guard, exactly: a GET of a supported job whose target carries no scheme, host, fragment or line break, whose
   path is an instance of the job's documented endpoint and whose query is what that endpoint takes.
   */
  lemma GuardAcceptsIff(u: Unicode, spec: Spec)
    requires Standard(u)
    ensures Allowed(u, spec) <==>
              && spec.httpMethod == "GET"
              && NoScheme(spec.target) && Free(spec.target, '\r') && Free(spec.target, '\n')
              && spec.target != "" && spec.target[0] == '/'
              && UrlSplit(spec.target).Some?
              && Conforms(u, spec.job, UrlSplit(spec.target).value.0, RawQuery(UrlSplit(spec.target).value.1))
  {
    hide Standard, NoScheme, Free, UrlSplit, PathAndQueryAllowed, Conforms, Marked, Keyed;
    if spec.target != "" && spec.target[0] == '/' && UrlSplit(spec.target).Some? {
      var (path, query) := UrlSplit(spec.target).value;
      var _, _ := UrlSplitRebuilds(spec.target);
      NoFieldsKeyed();
      if spec.job != UNSUPPORTED {
        PathAndQueryIff(u, spec.job, path, RawQuery(query));
      } else {
        UnsupportedConformsNever(u, path, RawQuery(query));
      }
    }
  }

  lemma NoFieldsKeyed()
    ensures Keyed([]) == []
  {
  }

  lemma UnsupportedConformsNever(u: Unicode, path: string, fields: seq<Field>)
    ensures !Conforms(u, UNSUPPORTED, path, fields)
  {
  }

  // ---------- Refusals ----------

  /** Any method but GET, and any target that does not start with a slash, is refused. */
  lemma GuardRefusesMethodAndHost(u: Unicode, spec: Spec)
    requires spec.httpMethod != "GET" || spec.target == "" || spec.target[0] != '/'
    ensures !Allowed(u, spec)
  {
  }

  /** A path with more or fewer segments than the documented endpoint is refused, with and without a query. */
  lemma GuardRefusesOtherLengths(u: Unicode, job: JobType, segments: seq<string>, fields: seq<Field>)
    requires Standard(u) && SafeSegments(segments) && segments != [] && |segments| != |AuditSegments(job)|
    ensures !Allowed(u, Spec(job, "GET", PathText(segments)))
    ensures !Allowed(u, Spec(job, "GET", PathText(segments) + "?" + UrlEncode(fields)))
  {
    hide Standard, AuditSegments, Split, PathAndQueryAllowed, Conforms, UrlSplit, PathText, GoodPath, Marked, UrlEncode;
    var path := PathText(segments);
    PathTextIsGood(segments);
    GoodPathIsSplit(path);
    GoodPathIsMarked(path);
    PlainPath(segments);
    if job != UNSUPPORTED {
      hide Allowed;
      GuardAcceptsIff(u, Spec(job, "GET", path));
      GuardReadsQuery(u, job, path, fields);
      QueryRoundTrip(fields);
      PathAndQueryIff(u, job, path, fields);
      forall query | Conforms(u, job, path, query) ensures false {
        ConformingLength(u, job, path, query);
      }
    }
  }

  lemma PlainPath(segments: seq<string>)
    requires SafeSegments(segments)
    ensures Split(PathText(segments)) == [""] + segments
  {
    hide Split, PathText;
    forall i | 0 <= i < |segments| ensures Free(segments[i], '/') {
      assert SafeSegment(segments[i]);
    }
    SplitIff(PathText(segments), segments);
  }

  lemma GoodPathIsSplit(path: string)
    requires GoodPath(path)
    ensures UrlSplit(path) == Some((path, None))
  {
    hide UrlSplit, Partition;
    UrlSplitOfPlainTarget(path);
    PartitionNone(path, '?');
  }

  lemma ConformingLength(u: Unicode, job: JobType, path: string, fields: seq<Field>)
    requires Conforms(u, job, path, fields)
    ensures |Split(path)| == |AuditSegments(job)| + 1
  {
    hide AuditSegments, Split, QueryFits;
  }

  /** The path of a print job with anything after it is refused. */
  lemma GuardRefusesTrailingSegment(u: Unicode)
    requires Standard(u)
    ensures var target := "/api/v3" + ("/true-api/edo" + ("/outgoing-documents/x" + "/print/evil"));
            !Allowed(u, Spec(EDO_OUTGOING_PRINT, "GET", target))
  {
    hide Allowed;
    var segments := ["api", "v3", "true-api", "edo", "outgoing-documents", "x", "print", "evil"];
    assert SafeSegments(segments) by {
      ShortSegments();
      LongSegments();
      EndSegments();
      DirectionSegments();
    }
    GuardRefusesOtherLengths(u, EDO_OUTGOING_PRINT, segments, []);
    PathOfTrailingSegment();
  }

  lemma TwoSegments(a: string, b: string)
    ensures PathText([a, b]) == "/" + a + ("/" + b)
  {
    OneSegment(a);
    OneSegment(b);
    PathTextConcat([a], [b]);
    assert [a] + [b] == [a, b];
  }

  lemma PathOfTrailingSegment()
    ensures PathText(["api", "v3", "true-api", "edo", "outgoing-documents", "x", "print", "evil"]) ==
              "/api/v3" + ("/true-api/edo" + ("/outgoing-documents/x" + "/print/evil"))
  {
    hide PathText;
    var a, b, c, d := ["api", "v3"], ["true-api", "edo"], ["outgoing-documents", "x"], ["print", "evil"];
    TwoSegments("api", "v3");
    TwoSegments("true-api", "edo");
    TwoSegments("outgoing-documents", "x");
    TwoSegments("print", "evil");
    PathTextConcat(a, b + (c + d));
    PathTextConcat(b, c + d);
    PathTextConcat(c, d);
    assert a + (b + (c + d)) == ["api", "v3", "true-api", "edo", "outgoing-documents", "x", "print", "evil"];
    assert PathText(a) == "/api/v3" && PathText(b) == "/true-api/edo";
    assert PathText(c) == "/outgoing-documents/x" && PathText(d) == "/print/evil";
  }

  /** A list query that names any field the endpoint does not document is refused, whatever else it holds. */
  lemma GuardRefusesUnknownField(u: Unicode, job: JobType, fields: seq<Field>, i: nat)
    requires Standard(u) && IsListJob(job) && i < |fields| && fields[i].0 !in LIST_NAMES
    ensures !Allowed(u, Spec(job, "GET", PathText(AuditSegments(job)) + "?" + UrlEncode(fields)))
  {
    hide Standard, Allowed, PathAndQueryAllowed, UrlEncode, PathText, GoodPath, Conforms, AuditSegments, Marked;
    var path := PathText(AuditSegments(job));
    ListLabelIsGood(job);
    GuardReadsQuery(u, job, path, fields);
    QueryRoundTrip(fields);
    GoodPathIsMarked(path);
    PathAndQueryIff(u, job, path, fields);
    UnknownFieldConformsNever(u, job, path, fields, i);
  }

  lemma ListLabelIsGood(job: JobType)
    requires IsListJob(job)
    ensures GoodPath(PathText(AuditSegments(job)))
  {
    hide GoodPath, SafeSegments, PathText;
    DirectionSegments();
    assert AuditSegments(job) == GuardShape(job).path;
    ShapesAreSafe(job);
    PathTextIsGood(AuditSegments(job));
  }

  lemma GoodPathIsMarked(path: string)
    requires GoodPath(path)
    ensures Marked(path)
  {
  }

  lemma UnknownFieldConformsNever(u: Unicode, job: JobType, path: string, fields: seq<Field>, i: nat)
    requires IsListJob(job) && i < |fields| && fields[i].0 !in LIST_NAMES
    ensures !Conforms(u, job, path, fields)
  {
    assert !FieldFits(u, fields[i].0, fields[i].1);
  }

  // ---------- What an accepted target stands for ----------

  /** The bounds the validator puts on texts and the guard does not look at. */
  ghost predicate TextsWithinBounds(payload: Payload) {
    && (forall k :: k in payload && k in {DocumentId, EventId, FileId} ==>
          |ValueText(payload[k])| <= 2048 && '\0' !in ValueText(payload[k]))
    && (ReceiptType in payload ==> |ValueText(payload[ReceiptType])| <= 128)
    && (PartnerId in payload ==> |ValueText(payload[PartnerId])| <= 512)
  }

  lemma EncodeCharDecodes(b: bytes)
    requires b != []
    ensures Decode(b) != ""
  {
  }

  lemma UnquotedIsNotEmpty(text: string)
    requires text != ""
    ensures Unquote(text, false) != ""
  {
    hide Decode, DecodeChar;
    assert UnquoteBytes(text, false) != [];
    EncodeCharDecodes(UnquoteBytes(text, false));
  }

  lemma AcceptedInnDecodes(u: Unicode, job: JobType, path: string, query: seq<KeyedField>)
    requires Standard(u) && GuardShape(job).InnShape? && PathAndQueryAllowed(u, job, path, query)
    ensures Canonical(u, job, DecodeParts(u, job, path, query))
  {
    var prefix := GuardShape(job).prefix;
    hide PathText;
    var inn :| InnText(u, inn) && path == PathText(prefix) + "/" + inn;
    CutPrefix(PathText(prefix), inn, "");
    assert forall i :: 0 <= i < |inn| ==> u.isDecimal(inn[i]);
    assert AllDigits(u, inn);
  }

  lemma AcceptedIdDecodes(u: Unicode, job: JobType, path: string, query: seq<KeyedField>)
    requires GuardShape(job).IdShape? && PathAndQueryAllowed(u, job, path, query)
    ensures var payload := DecodeParts(u, job, path, query);
            Canonical(u, job, payload) <==> TextsWithinBounds(payload)
  {
    var IdShape(prefix, suffix) := GuardShape(job);
    var id :| SegmentText(id) && path == PathText(prefix) + "/" + id + PathText(suffix);
    hide PathText, Unquote, Cut, SegmentText;
    CutPrefix(PathText(prefix), id, PathText(suffix));
    SegmentIsNotEmpty(id);
    UnquotedIsNotEmpty(id);
    IdPayloadIff(u, job, Unquote(id, false));
  }

  lemma SegmentIsNotEmpty(id: string)
    requires SegmentText(id)
    ensures id != ""
  {
  }

  lemma IdPayloadIff(u: Unicode, job: JobType, text: string)
    requires GuardShape(job).IdShape? && text != ""
    ensures Canonical(u, job, map[DocumentId := Str(text)]) <==> TextsWithinBounds(map[DocumentId := Str(text)])
  {
    var payload := map[DocumentId := Str(text)];
    assert payload.Keys == {DocumentId};
    assert payload[DocumentId] == Str(text);
  }

  lemma TwoIdsPayloadIff(u: Unicode, job: JobType, first: string, second: string)
    requires GuardShape(job).TwoIdsShape? && first != "" && second != ""
    ensures var payload := map[DocumentId := Str(first), SecondKey(job) := Str(second)];
            Canonical(u, job, payload) <==> TextsWithinBounds(payload)
  {
    var payload := map[DocumentId := Str(first), SecondKey(job) := Str(second)];
    assert payload.Keys == {DocumentId, SecondKey(job)};
    assert payload[DocumentId] == Str(first) && payload[SecondKey(job)] == Str(second);
  }

  lemma TwoIdsOfPath(path: string, prefix: seq<string>, middle: seq<string>, suffix: seq<string>)
    returns (first: string, second: string)
    requires MatchesTwoIds(path, prefix, middle, suffix)
    ensures SegmentText(first) && SegmentText(second)
    ensures path == PathText(prefix) + "/" + first + (PathText(middle) + "/" + second + PathText(suffix))
  {
    hide PathText, SegmentText;
    first, second :| SegmentText(first) && SegmentText(second)
      && path == PathText(prefix) + "/" + first + (PathText(middle) + "/" + second + PathText(suffix));
  }

  lemma TwoIdsShapeDecodes(u: Unicode, job: JobType, path: string, query: seq<KeyedField>,
                           first: string, second: string)
    requires GuardShape(job).TwoIdsShape? && SegmentText(first)
    requires var TwoIdsShape(prefix, middle, suffix) := GuardShape(job);
             path == PathText(prefix) + "/" + first + (PathText(middle) + "/" + second + PathText(suffix))
    ensures DecodeParts(u, job, path, query) ==
              map[DocumentId := Str(Unquote(first, false)), SecondKey(job) := Str(Unquote(second, false))]
  {
    hide PathText, Unquote, Cut, SegmentText, Partition, SafeSegments, GoodPath, GuardShape, Free;
    var TwoIdsShape(prefix, middle, suffix) := GuardShape(job);
    ShapesAreSafe(job);
    PathTextIsGood(middle);
    GoodPathStart(PathText(middle));
    IdIsFree(first);
    TwoIdsPathDecodes(PathText(prefix), first, PathText(middle), second, PathText(suffix));
  }

  lemma AcceptedTwoIdsDecode(u: Unicode, job: JobType, path: string, query: seq<KeyedField>)
    requires GuardShape(job).TwoIdsShape? && PathAndQueryAllowed(u, job, path, query)
    ensures var payload := DecodeParts(u, job, path, query);
            Canonical(u, job, payload) <==> TextsWithinBounds(payload)
  {
    hide PathText, Unquote, SegmentText, Canonical, TextsWithinBounds, GuardShape, DecodeParts, MatchesTwoIds;
    var TwoIdsShape(prefix, middle, suffix) := GuardShape(job);
    var first, second := TwoIdsOfPath(path, prefix, middle, suffix);
    TwoIdsShapeDecodes(u, job, path, query, first, second);
    SegmentIsNotEmpty(first);
    SegmentIsNotEmpty(second);
    UnquotedIsNotEmpty(first);
    UnquotedIsNotEmpty(second);
    TwoIdsPayloadIff(u, job, Unquote(first, false), Unquote(second, false));
  }

  lemma AcceptedFileDecodes(u: Unicode, job: JobType, path: string, query: seq<KeyedField>)
    requires GuardShape(job).FileShape? && PathAndQueryAllowed(u, job, path, query)
    ensures var payload := DecodeParts(u, job, path, query);
            Canonical(u, job, payload) <==> TextsWithinBounds(payload)
  {
    assert query[1..] == [] && FirstValue(query, FileId) == query[0].1;
    var payload := DecodeParts(u, job, path, query);
    assert payload.Keys == {FileId} && payload[FileId] == Str(query[0].1);
  }

  lemma AcceptedFixedDecodes(u: Unicode, job: JobType, path: string, query: seq<KeyedField>)
    requires GuardShape(job).FixedShape? && PathAndQueryAllowed(u, job, path, query)
    ensures DecodeParts(u, job, path, query) == map[] && Canonical(u, job, map[])
  {
    hide PathText, CanonicalList, BadListField, Inn;
  }

  /** One field of an accepted list query, decoded. */
  lemma AcceptedFieldDecodes(u: Unicode, query: seq<KeyedField>, key: Key)
    requires Standard(u) && ListQueryAllowed(u, query) && key in DecodeList(u, query)
    ensures var value := DecodeList(u, query)[key];
            && ListKey(key) && value != Null
            && (key == Limit ==> value.Int? && value.number >= 1)
            && (key == Offset ==> value.Int? && value.number >= 0)
            && (key == Asc ==> value.Bool?)
            && (OptionalKey(key) ==> (OptionalOk(u, key, value) <==> (key == PartnerId ==> |ValueText(value)| <= 512)))
  {
    hide Uint, AllDecimal, Values, Standard;
    var i :| 0 <= i < |query| && query[i].0 == key;
    assert AllowedListKey(query[i].0) && |Values(query, key)| == 1;
    var raw := FirstValue(query, key);
    assert ListValueAllowed(u, key, raw);
    if key == PartnerInn {
      DecimalIsDigits(u, raw);
    }
  }

  lemma DecimalIsDigits(u: Unicode, text: string)
    requires Standard(u) && AllDecimal(u, text)
    ensures AllDigits(u, text)
  {
    assert forall i :: 0 <= i < |text| ==> u.isDecimal(text[i]);
  }

  lemma RequiredFieldDecodes(u: Unicode, query: seq<KeyedField>, key: Key)
    requires Values(query, key) != [] && key != SortBy
    ensures key in DecodeList(u, query)
  {
    hide Values;
    var i := FieldOfValues(query, key);
  }

  lemma AcceptedListIsFixed(payload: Payload)
    requires Limit in payload && Offset in payload && Asc in payload
    requires forall k :: k in payload ==> ListKey(k) && payload[k] != Null
    ensures CanonicalList(payload) == payload
  {
  }

  lemma AcceptedListDecodes(u: Unicode, job: JobType, query: seq<KeyedField>)
    requires Standard(u) && IsListJob(job) && ListQueryAllowed(u, query)
    ensures var payload := DecodeList(u, query);
            Canonical(u, job, payload) <==> TextsWithinBounds(payload)
  {
    hide Values, Standard, BadListField, DecodeList, OptionalOk, ListKey, CanonicalList, ValueText;
    var payload := DecodeList(u, query);
    RequiredFieldDecodes(u, query, Limit);
    RequiredFieldDecodes(u, query, Offset);
    RequiredFieldDecodes(u, query, Asc);
    forall k | k in payload
      ensures ListKey(k) && payload[k] != Null
      ensures k == Limit ==> payload[k].Int? && payload[k].number >= 1
      ensures k == Offset ==> payload[k].Int? && payload[k].number >= 0
      ensures k == Asc ==> payload[k].Bool?
      ensures OptionalKey(k) ==>
                (OptionalOk(u, k, payload[k]) <==> (k == PartnerId ==> |ValueText(payload[k])| <= 512))
    {
      AcceptedFieldDecodes(u, query, k);
    }
    AcceptedListIsFixed(payload);
    NoBadFieldIffFine(u, payload);
    OnlyPartnerIdBounded(payload);
    forall k | OptionalKey(k)
      ensures GivenOk(u, payload, k) <==> (k in payload && k == PartnerId ==> |ValueText(payload[k])| <= 512)
    {
    }
    assert OptionalKey(PartnerId);
    assert ListFine(u, payload) <==> (PartnerId in payload ==> |ValueText(payload[PartnerId])| <= 512);
  }

  lemma OnlyPartnerIdBounded(payload: Payload)
    requires forall k :: k in payload ==> ListKey(k)
    ensures TextsWithinBounds(payload) <==> (PartnerId in payload ==> |ValueText(payload[PartnerId])| <= 512)
  {
    hide ValueText;
  }

  /**
   Whatever path and query the guard accepts for a job stand for a payload, and the builder takes that payload unless
   one of its texts is longer than the validator allows or holds a NUL, which the guard does not look at.
   */
  lemma AcceptedStandsForPayload(u: Unicode, job: JobType, path: string, query: seq<KeyedField>)
    requires Standard(u) && PathAndQueryAllowed(u, job, path, query)
    ensures var payload := DecodeParts(u, job, path, query);
            Build(u, job, payload).Ok? <==> TextsWithinBounds(payload)
  {
    hide Standard, Validate, DecodeParts, Target, TextsWithinBounds, PathAndQueryAllowed;
    assert Build(u, job, DecodeParts(u, job, path, query)).Ok? <==> Canonical(u, job, DecodeParts(u, job, path, query));
    match GuardShape(job)
    case InnShape(_) =>
      AcceptedInnDecodes(u, job, path, query);
      InnIsBounded(u, job, path, query);
    case ListShape(_) =>
      ListParts(u, job, path, query);
      AcceptedListDecodes(u, job, query);
    case IdShape(_, _) => AcceptedIdDecodes(u, job, path, query);
    case TwoIdsShape(_, _, _) => AcceptedTwoIdsDecode(u, job, path, query);
    case FixedShape(_) =>
      AcceptedFixedDecodes(u, job, path, query);
      NothingIsBounded();
    case FileShape(_) => AcceptedFileDecodes(u, job, path, query);
    case NoShape => NothingAccepted(u, job, path, query);
  }

  /** The bound is real: an id one character too long is accepted on the wire and by no payload. */
  lemma GuardAcceptsOverlongId(u: Unicode)
    requires Standard(u)
    ensures var id := seq(2049, _ => 'a');
            && Allowed(u, Spec(EDO_OUTGOING_LEGAL_ZIP, "GET", PathText(["elk", "outgoing-documents"] + [id])))
            && !OpaqueRemoteId(Str(id))
  {
    hide Allowed, Conforms, Split, UrlSplit, PathText, Standard;
    var id := seq(2049, _ => 'a');
    var segments := ["elk", "outgoing-documents"] + [id];
    DirectionSegments();
    ShortSegments();
    assert SafeSegment(id);
    assert SafeSegments(segments);
    PathTextIsGood(segments);
    GoodPathIsSplit(PathText(segments));
    PlainPath(segments);
    GuardAcceptsIff(u, Spec(EDO_OUTGOING_LEGAL_ZIP, "GET", PathText(segments)));
    GoodPathIsClean(PathText(segments));
    ZipPathConforms(u, PathText(segments), id);
  }

  lemma GoodPathIsClean(path: string)
    requires GoodPath(path)
    ensures NoScheme(path) && Free(path, '\r') && Free(path, '\n') && path != "" && path[0] == '/'
  {
  }

  lemma ZipPathConforms(u: Unicode, path: string, id: string)
    requires Split(path) == [""] + (["elk", "outgoing-documents"] + [id]) && id != ""
    ensures Conforms(u, EDO_OUTGOING_LEGAL_ZIP, path, RawQuery(None))
  {
    hide Split;
    DirectionSegments();
    Holes();
    assert AuditSegments(EDO_OUTGOING_LEGAL_ZIP) == ["elk", "outgoing-documents", "{documentId}"];
    assert "elk"[0] == 'e' && "outgoing-documents"[0] == 'o';
  }

  lemma NothingAccepted(u: Unicode, job: JobType, path: string, query: seq<KeyedField>)
    requires GuardShape(job).NoShape?
    ensures !PathAndQueryAllowed(u, job, path, query)
  {
  }

  lemma NothingIsBounded()
    ensures TextsWithinBounds(map[])
  {
  }

  lemma InnIsBounded(u: Unicode, job: JobType, path: string, query: seq<KeyedField>)
    requires GuardShape(job).InnShape?
    ensures TextsWithinBounds(DecodeParts(u, job, path, query))
  {
    hide Cut, PathText;
  }

  lemma ListParts(u: Unicode, job: JobType, path: string, query: seq<KeyedField>)
    requires GuardShape(job).ListShape?
    ensures DecodeParts(u, job, path, query) == DecodeList(u, query) && IsListJob(job)
    ensures PathAndQueryAllowed(u, job, path, query) ==> ListQueryAllowed(u, query)
  {
    hide DecodeList, ListQueryAllowed;
  }

  // ---------- What the validator lets through ----------

  ghost predicate NaturalOrNull(root: Payload, key: Key) {
    key in root ==> root[key] == Null || (root[key].Int? && root[key].number >= 0)
  }

  /** The documented filters of a list, one by one. */
  ghost predicate ListDocumented(u: Unicode, root: Payload) {
    && (forall k :: k in root ==>
          k in {Limit, Offset, CreatedFrom, CreatedTo, PartnerInn, PartnerId, StatusCode, TypeCode, Folder, Asc,
                ProductGroup})
    && (Limit in root ==> root[Limit].Int? && root[Limit].number >= 1)
    && (Offset in root ==> root[Offset].Int? && root[Offset].number >= 0)
    && (Asc in root ==> root[Asc].Bool?)
    && NaturalOrNull(root, CreatedFrom) && NaturalOrNull(root, CreatedTo) && NaturalOrNull(root, TypeCode)
    && (PartnerId in root && root[PartnerId] != Null ==>
          root[PartnerId].Str? && 1 <= |root[PartnerId].text| <= 512)
    && (PartnerInn in root && root[PartnerInn] != Null ==>
          root[PartnerInn].Str? && (|root[PartnerInn].text| == 10 || |root[PartnerInn].text| == 12)
          && forall i :: 0 <= i < |root[PartnerInn].text| ==> u.isDigit(root[PartnerInn].text[i]))
    && (StatusCode in root && root[StatusCode] != Null ==>
          root[StatusCode].Int? && root[StatusCode].number >= 0 && DocumentedStatus(root[StatusCode].number))
    && (Folder in root && root[Folder] != Null ==> root[Folder].Int? && 0 <= root[Folder].number <= 8)
    && (ProductGroup in root ==> root[ProductGroup] == Null || root[ProductGroup] == Int(1))
  }

  lemma OptionsDocumentedIff(u: Unicode, root: Payload)
    requires forall k :: k in root ==> ListKey(k)
    ensures ListFine(u, root) <==> ListDocumented(u, root)
  {
    hide DocumentedStatus;
    if StatusCode in root && root[StatusCode].Int? {
      DocumentedStatusIff(root[StatusCode].number);
    }
    if ListFine(u, root) {
      assert GivenOk(u, root, CreatedFrom) && GivenOk(u, root, CreatedTo) && GivenOk(u, root, PartnerInn);
      assert GivenOk(u, root, PartnerId) && GivenOk(u, root, StatusCode) && GivenOk(u, root, TypeCode);
      assert GivenOk(u, root, Folder) && GivenOk(u, root, ProductGroup);
    }
  }

  /** A list payload is refused exactly for a reason the source names. */
  lemma ListValidIff(u: Unicode, job: JobType, root: Payload)
    requires IsListJob(job)
    ensures Validate(u, job, Some(root)).Ok? <==> ListDocumented(u, root)
  {
    hide BadListField, ListDocumented, ListFine;
    NoBadFieldIffFine(u, root);
    if forall k :: k in root ==> ListKey(k) {
      OptionsDocumentedIff(u, root);
    } else {
      UnknownFieldUndocumented(u, root);
    }
  }

  lemma UnknownFieldUndocumented(u: Unicode, root: Payload)
    requires exists k :: k in root && !ListKey(k)
    ensures !ListDocumented(u, root)
  {
  }

  /** What a validated list carries: every given filter unchanged, no null, and the defaults for what is missing. */
  lemma ValidListCarries(u: Unicode, job: JobType, root: Payload)
    requires IsListJob(job) && Validate(u, job, Some(root)).Ok?
    ensures var valid := Validate(u, job, Some(root)).value;
            && (forall k :: k in root && root[k] != Null ==> k in valid && valid[k] == root[k])
            && (forall k :: k in valid && k !in root ==> k in {Limit, Offset, Asc})
            && (forall k :: k in valid ==> valid[k] != Null)
            && (Limit !in root ==> Limit in valid && valid[Limit] == Int(10))
            && (Offset !in root ==> Offset in valid && valid[Offset] == Int(0))
            && (Asc !in root ==> Asc in valid && valid[Asc] == Bool(false))
  {
    hide OptionalOk, GivenOk;
    NoBadFieldIffFine(u, root);
  }

  ghost predicate OpaqueText(v: Value) {
    v.Str? && 1 <= |v.text| <= 2048 && '\0' !in v.text
  }

  /** Every other job takes exactly its own fields, of the right form, and gives them back unchanged. */
  lemma PlainJobValidIff(u: Unicode, job: JobType, root: Payload)
    requires !IsListJob(job)
    ensures Validate(u, job, Some(root)).Ok? <==>
              && job != UNSUPPORTED
              && root.Keys == (
                   if job == EDO_PARTICIPANT then {InnKey}
                   else if job in {EDO_OUTGOING_UNSIGNED_EVENTS, EDO_INCOMING_UNSIGNED_EVENTS} then {}
                   else if job == EDO_GIS_PROCESSING then {FileId}
                   else if job == EDO_EVENT_CONTENT then {DocumentId, EventId}
                   else if job in {EDO_OUTGOING_RECEIPT, EDO_INCOMING_RECEIPT} then {DocumentId, ReceiptType}
                   else {DocumentId})
              && (InnKey in root ==>
                    root[InnKey].Str? && (|root[InnKey].text| == 10 || |root[InnKey].text| == 12)
                    && forall i :: 0 <= i < |root[InnKey].text| ==> u.isDigit(root[InnKey].text[i]))
              && (forall k :: k in root && k in {DocumentId, EventId, FileId} ==> OpaqueText(root[k]))
              && (ReceiptType in root ==> root[ReceiptType].Str? && 1 <= |root[ReceiptType].text| <= 128)
    ensures Validate(u, job, Some(root)).Ok? ==> Validate(u, job, Some(root)) == Ok(root)
  {
    hide CanonicalList, BadListField, ListKey;
    if root.Keys == {} {
      assert root == map[];
    }
    var r := Validate(u, job, Some(root));
    if r.Ok? {
      assert r.value.Keys == root.Keys && forall k :: k in root ==> r.value[k] == root[k];
      assert r.value == root;
    }
  }
}
