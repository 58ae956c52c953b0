/**
 From an accepted envelope to a Kafka record and back. UUID and time texts go
 through a codec whose parser undoes its printer; the hexadecimal key and the JSON
 source are written and read here.
 */
module Wire {
  import opened Wrappers
  import opened HeaderNames
  import Json
  import CanonicalJson
  import Hex

  type Uuid = nat
  type Time = int

  datatype Header = Header(key: string, value: Option<string>)

  datatype RecordHeaders = RecordHeaders(user: map<string, string>, reserved: map<string, string>,
                                         trace: map<string, string>)

  datatype Identity = Identity(key: seq<Hex.byte>, source: Option<Json.Value>)

  datatype Envelope = Envelope(payload: string, messageId: Uuid, correlationId: Uuid, causationId: Option<Uuid>,
                               occurredAt: Time, identity: Option<Identity>, headers: map<string, string>)

  datatype Trace = Trace(parent: string, state: Option<string>)

  datatype Record = Record(topic: string, key: Option<string>, payload: Option<string>, headers: seq<Header>)

  datatype Codec = Codec(uuid: Uuid -> string, parseUuid: string -> Option<Uuid>, time: Time -> string,
                         parseTime: string -> Option<Time>, decodes: string -> bool)

  ghost predicate Sound(c: Codec) {
    && (forall u: Uuid :: c.parseUuid(c.uuid(u)) == Some(u))
    && (forall t: Time :: c.parseTime(c.time(t)) == Some(t))
  }

  // ----- Reading headers ---------------------------------------------------------------------------

  function Get(m: map<string, string>, k: string): Option<string> {
    if k in m then Some(m[k]) else None
  }

  /** One header sorted into its namespace: the first trace or reserved value of a
      folded key stays, the last user value of a key stays. */
  function Taken(h: RecordHeaders, header: Header): RecordHeaders {
    if header.value.None? then h
    else
      var key, value := Lower(header.key), header.value.value;
      if IsTrace(header.key) then (if key in h.trace then h else h.(trace := h.trace[key := value]))
      else if RESERVED_PREFIX <= key then (if key in h.reserved then h else h.(reserved := h.reserved[key := value]))
      else h.(user := h.user[header.key := value])
  }

  function Of(headers: seq<Header>): RecordHeaders {
    if headers == [] then RecordHeaders(map[], map[], map[])
    else Taken(Of(headers[..|headers| - 1]), headers[|headers| - 1])
  }

  /** `RecordHeaders::of`: one pass over the record's header list. */
  method RecordHeadersOf(headers: seq<Header>) returns (h: RecordHeaders)
    ensures h == Of(headers)
  {
    var user, reserved, trace: map<string, string> := map[], map[], map[];
    assert headers[..0] == [];
    for i := 0 to |headers|
      invariant RecordHeaders(user, reserved, trace) == Of(headers[..i])
    {
      assert headers[..i + 1][..i] == headers[..i];
      if headers[i].value.Some? {
        var lowercased, value := Lower(headers[i].key), headers[i].value.value;
        if lowercased == TRACEPARENT || lowercased == TRACESTATE {
          if lowercased !in trace {
            trace := trace[lowercased := value];
          }
        } else if RESERVED_PREFIX <= lowercased {
          if lowercased !in reserved {
            reserved := reserved[lowercased := value];
          }
        } else {
          user := user[headers[i].key := value];
        }
      }
    }
    assert headers[..|headers|] == headers;
    return RecordHeaders(user, reserved, trace);
  }

  /** The first value under any casing of `name`. */
  function First(headers: seq<Header>, name: string): Option<string> {
    if headers == [] then None
    else if headers[0].value.Some? && Lower(headers[0].key) == name then headers[0].value
    else First(headers[1..], name)
  }

  lemma {:induction false} FirstAppend(a: seq<Header>, b: seq<Header>, name: string)
    ensures First(a + b, name) == if First(a, name).Some? then First(a, name) else First(b, name)
  {
    if a == [] {
      assert a + b == b;
    } else {
      assert (a + b)[1..] == a[1..] + b;
      FirstAppend(a[1..], b, name);
    }
  }

  lemma {:induction false} ReservedIsFirst(headers: seq<Header>, name: string)
    requires RESERVED_PREFIX <= name
    ensures Get(Of(headers).reserved, name) == First(headers, name)
  {
    if headers != [] {
      var init, last := headers[..|headers| - 1], headers[|headers| - 1];
      ReservedIsFirst(init, name);
      assert headers == init + [last];
      FirstAppend(init, [last], name);
      ReservedAlike(last.key);
    }
  }

  lemma {:induction false} TraceIsFirst(headers: seq<Header>, name: string)
    requires name == TRACEPARENT || name == TRACESTATE
    ensures Get(Of(headers).trace, name) == First(headers, name)
  {
    if headers != [] {
      var init, last := headers[..|headers| - 1], headers[|headers| - 1];
      TraceIsFirst(init, name);
      assert headers == init + [last];
      FirstAppend(init, [last], name);
    }
  }

  /** The last value written under exactly `key`. */
  function Last(headers: seq<Header>, key: string): Option<string> {
    if headers == [] then None
    else
      var last := headers[|headers| - 1];
      if last.value.Some? && last.key == key then last.value else Last(headers[..|headers| - 1], key)
  }

  lemma {:induction false} UserIsLast(headers: seq<Header>, key: string)
    ensures Get(Of(headers).user, key) == if IsTrace(key) || IsReserved(key) then None else Last(headers, key)
  {
    if headers != [] {
      UserIsLast(headers[..|headers| - 1], key);
      ReservedAlike(headers[|headers| - 1].key);
      ReservedAlike(key);
    }
  }

  // ----- Enqueue and publish -----------------------------------------------------------------------------

  datatype EnqueueError = ReservedHeader | MissingIdempotencyKey

  /** What enqueue stores, or why it refuses. `routed` says the partition key is
      the entity key, in which case the entity needs no header of its own. */
  function Enqueued(env: Envelope, entityKey: string, routed: bool): Result<Envelope, EnqueueError> {
    if exists k :: k in env.headers && IsReserved(k) then Failure(ReservedHeader)
    else if env.identity.None? then Failure(MissingIdempotencyKey)
    else Success(if routed then env else env.(headers := env.headers[ENTITY_KEY := entityKey]))
  }

  /** Refused exactly for a header in the reserved namespace or a missing identity, the
      first before the second. What is stored is the envelope, with the entity under
      its own header exactly when the record is not routed by it. */
  lemma EnqueuedExactly(env: Envelope, entityKey: string, routed: bool)
    ensures var r := Enqueued(env, entityKey, routed);
            && (r.Success? <==> env.identity.Some? && forall k :: k in env.headers ==> !IsReserved(k))
            && (r == Failure(ReservedHeader) <==> exists k :: k in env.headers && IsReserved(k))
            && (r.Success? ==>
                  && r.value == env.(headers := r.value.headers)
                  && (ENTITY_KEY in r.value.headers <==> !routed)
                  && (!routed ==> r.value.headers[ENTITY_KEY] == entityKey)
                  && forall k :: k != ENTITY_KEY ==> Get(r.value.headers, k) == Get(env.headers, k))
  {
    OtherNames();
    LowerOfLower(ENTITY_KEY);
    ReservedAlike(ENTITY_KEY);
    assert IsReserved(ENTITY_KEY);
  }

  function Of1(key: string, value: Option<string>): seq<Header> {
    if value.Some? then [Header(key, value)] else []
  }

  /** `managed_headers`: the stored row's, and the publishing span's trace or else
      the one stored at enqueue. */
  function ManagedHeaders(c: Codec, row: Envelope, trace: Option<Trace>): seq<Header>
    requires row.identity.Some?
  {
    [Header(MESSAGE_ID, Some(c.uuid(row.messageId))), Header(CORRELATION_ID, Some(c.uuid(row.correlationId))),
     Header(OCCURRED_AT, Some(c.time(row.occurredAt)))]
    + [Header(IDEMPOTENCY_KEY, Some(Hex.Encoded(row.identity.value.key)))]
    + Of1(IDEMPOTENCY_SOURCE, if row.identity.value.source.Some?
                              then Some(CanonicalJson.Write(row.identity.value.source.value)) else None)
    + Of1(CAUSATION_ID, if row.causationId.Some? then Some(c.uuid(row.causationId.value)) else None)
    + (if trace.Some? then [Header(TRACEPARENT, Some(trace.value.parent))] + Of1(TRACESTATE, trace.value.state) else [])
  }

  /** The stored user headers without the trace keys, each once, in some order. */
  ghost predicate UserBlock(headers: map<string, string>, users: seq<Header>) {
    && (forall i :: 0 <= i < |users| ==>
          users[i].key in headers && !IsTrace(users[i].key) && users[i].value == Some(headers[users[i].key]))
    && (forall k :: k in headers && !IsTrace(k) ==> Listed(users, k))
    && (forall i, j :: 0 <= i < j < |users| ==> users[i].key != users[j].key)
  }

  ghost predicate Listed(users: seq<Header>, k: string) {
    exists i :: 0 <= i < |users| && users[i].key == k
  }

  /** The loop over the stored headers, in any order. */
  method UserHeaderList(headers: map<string, string>) returns (users: seq<Header>)
    ensures UserBlock(headers, users)
  {
    users := [];
    var left := headers.Keys;
    while left != {}
      invariant left <= headers.Keys
      invariant forall i :: 0 <= i < |users| ==>
                  && users[i].key in headers && !IsTrace(users[i].key) && users[i].value == Some(headers[users[i].key])
                  && users[i].key !in left
      invariant forall k :: k in headers && k !in left && !IsTrace(k) ==> Listed(users, k)
      invariant forall i, j :: 0 <= i < j < |users| ==> users[i].key != users[j].key
      decreases left
    {
      var key :| key in left;
      left := left - {key};
      if !IsTrace(key) {
        ListedOn(users, Header(key, Some(headers[key])));
        users := users + [Header(key, Some(headers[key]))];
      }
    }
  }

  lemma ListedOn(users: seq<Header>, h: Header)
    ensures forall k :: Listed(users + [h], k) <==> Listed(users, k) || k == h.key
  {
    var more := users + [h];
    assert more[|users|] == h;
    assert forall i :: 0 <= i < |users| ==> more[i] == users[i];
  }

  /** `publish_row_traced`'s header list: user headers first, then the managed
      ones. */
  method PublishHeaders(c: Codec, row: Envelope, trace: Option<Trace>)
    returns (headers: seq<Header>, users: seq<Header>)
    requires row.identity.Some?
    ensures UserBlock(row.headers, users) && headers == users + ManagedHeaders(c, row, trace)
  {
    users := UserHeaderList(row.headers);
    headers := users;
    var managed := ManagedHeaders(c, row, trace);
    for i := 0 to |managed|
      invariant headers == users + managed[..i]
    {
      headers := headers + [managed[i]];
    }
    assert managed[..|managed|] == managed;
  }

  // ----- Ingest ---------------------------------------------------------------------------------------

  datatype IngestError = UnexpectedTopic | MissingPayload | InvalidPayload | NoIdempotencyKey | InvalidHeader(name: string)

  /** An unreadable source is dropped: the digest is what dedupe compares. */
  function ParseSource(text: string): Option<Json.Value> {
    match CanonicalJson.ReadValue(text)
    case Some((v, rest)) => if rest == "" then Some(v) else None
    case None => None
  }

  /** `record_envelope`, over an envelope freshly made for the payload. */
  function Decoded(c: Codec, topic: string, record: Record, made: Envelope): Result<Envelope, IngestError> {
    var h := Of(record.headers);
    if record.topic != topic then Failure(UnexpectedTopic)
    else if record.payload.None? then Failure(MissingPayload)
    else if !c.decodes(record.payload.value) then Failure(InvalidPayload)
    else if IDEMPOTENCY_KEY !in h.reserved then Failure(NoIdempotencyKey)
    else if Hex.Decoded(h.reserved[IDEMPOTENCY_KEY]).None? then Failure(InvalidHeader(IDEMPOTENCY_KEY))
    else
      var source := if IDEMPOTENCY_SOURCE in h.reserved then ParseSource(h.reserved[IDEMPOTENCY_SOURCE]) else None;
      var identity := Some(Identity(Hex.Decoded(h.reserved[IDEMPOTENCY_KEY]).value, source));
      if OCCURRED_AT in h.reserved && c.parseTime(h.reserved[OCCURRED_AT]).None? then Failure(InvalidHeader(OCCURRED_AT))
      else if MESSAGE_ID in h.reserved && c.parseUuid(h.reserved[MESSAGE_ID]).None? then Failure(InvalidHeader(MESSAGE_ID))
      else if CORRELATION_ID in h.reserved && c.parseUuid(h.reserved[CORRELATION_ID]).None?
      then Failure(InvalidHeader(CORRELATION_ID))
      else if CAUSATION_ID in h.reserved && c.parseUuid(h.reserved[CAUSATION_ID]).None?
      then Failure(InvalidHeader(CAUSATION_ID))
      else
        Success(Envelope(
          record.payload.value,
          if MESSAGE_ID in h.reserved then c.parseUuid(h.reserved[MESSAGE_ID]).value else made.messageId,
          if CORRELATION_ID in h.reserved then c.parseUuid(h.reserved[CORRELATION_ID]).value else made.correlationId,
          if CAUSATION_ID in h.reserved then c.parseUuid(h.reserved[CAUSATION_ID]) else made.causationId,
          if OCCURRED_AT in h.reserved then c.parseTime(h.reserved[OCCURRED_AT]).value else made.occurredAt,
          identity, h.user))
  }

  ghost predicate Parses<T>(text: Option<string>, parse: string -> Option<T>) {
    text.Some? ==> parse(text.value).Some?
  }

  /** What a record must carry: the declared topic, a payload that decodes, an
      idempotency key in hexadecimal, and no other managed header that does not
      parse. The first header under any casing is the one that is looked at. */
  lemma IngestRefusesExactly(c: Codec, topic: string, record: Record, made: Envelope)
    ensures Decoded(c, topic, record, made).Success? <==>
              && record.topic == topic && record.payload.Some? && c.decodes(record.payload.value)
              && First(record.headers, IDEMPOTENCY_KEY).Some? && Hex.HexText(First(record.headers, IDEMPOTENCY_KEY).value)
              && Parses(First(record.headers, OCCURRED_AT), c.parseTime)
              && Parses(First(record.headers, MESSAGE_ID), c.parseUuid)
              && Parses(First(record.headers, CORRELATION_ID), c.parseUuid)
              && Parses(First(record.headers, CAUSATION_ID), c.parseUuid)
  {
    IdNames();
    KeyNames();
    OtherNames();
    ReservedIsFirst(record.headers, IDEMPOTENCY_KEY);
    ReservedIsFirst(record.headers, OCCURRED_AT);
    ReservedIsFirst(record.headers, MESSAGE_ID);
    ReservedIsFirst(record.headers, CORRELATION_ID);
    ReservedIsFirst(record.headers, CAUSATION_ID);
  }

  // ----- What each lookup finds -----------------------------------------------------------------------------

  /** The value published under a reserved name. */
  function Written(c: Codec, row: Envelope, name: string): Option<string>
    requires row.identity.Some?
  {
    if name == MESSAGE_ID then Some(c.uuid(row.messageId))
    else if name == CORRELATION_ID then Some(c.uuid(row.correlationId))
    else if name == OCCURRED_AT then Some(c.time(row.occurredAt))
    else if name == IDEMPOTENCY_KEY then Some(Hex.Encoded(row.identity.value.key))
    else if name == IDEMPOTENCY_SOURCE then
      (if row.identity.value.source.Some? then Some(CanonicalJson.Write(row.identity.value.source.value)) else None)
    else if name == CAUSATION_ID then (if row.causationId.Some? then Some(c.uuid(row.causationId.value)) else None)
    else None
  }

  /** The managed names fold to themselves and differ from each other. */
  lemma NamesApart()
    ensures Lower(MESSAGE_ID) == MESSAGE_ID && Lower(CORRELATION_ID) == CORRELATION_ID && Lower(OCCURRED_AT) == OCCURRED_AT
    ensures Lower(IDEMPOTENCY_KEY) == IDEMPOTENCY_KEY && Lower(IDEMPOTENCY_SOURCE) == IDEMPOTENCY_SOURCE
    ensures Lower(CAUSATION_ID) == CAUSATION_ID
    ensures |MESSAGE_ID| == 19 && |CORRELATION_ID| == 23 && |OCCURRED_AT| == 20 && |IDEMPOTENCY_KEY| == 24
    ensures |IDEMPOTENCY_SOURCE| == 27 && |CAUSATION_ID| == 21 && |TRACEPARENT| == 11 && |TRACESTATE| == 10
  {
    IdNames();
    KeyNames();
    OtherNames();
    LowerOfLower(MESSAGE_ID);
    LowerOfLower(CORRELATION_ID);
    LowerOfLower(OCCURRED_AT);
    LowerOfLower(IDEMPOTENCY_KEY);
    LowerOfLower(IDEMPOTENCY_SOURCE);
    LowerOfLower(CAUSATION_ID);
  }

  function TraceHeaders(trace: Option<Trace>): seq<Header> {
    if trace.Some? then [Header(TRACEPARENT, Some(trace.value.parent))] + Of1(TRACESTATE, trace.value.state) else []
  }

  lemma FirstOf1(key: string, value: Option<string>, name: string)
    requires Lower(key) == key
    ensures First(Of1(key, value), name) == if key == name then value else None
  {}

  lemma FirstTrace(trace: Option<Trace>, name: string)
    ensures First(TraceHeaders(trace), name) ==
              if trace.None? then None
              else if name == TRACEPARENT then Some(trace.value.parent)
              else if name == TRACESTATE then trace.value.state
              else None
  {
    TraceNames();
    if trace.Some? {
      FirstAppend([Header(TRACEPARENT, Some(trace.value.parent))], Of1(TRACESTATE, trace.value.state), name);
      FirstOf1(TRACEPARENT, Some(trace.value.parent), name);
      FirstOf1(TRACESTATE, trace.value.state, name);
    }
  }

  lemma FirstThree(a: string, b: string, c: string, x: string, y: string, z: string, name: string)
    requires Lower(a) == a && Lower(b) == b && Lower(c) == c && a != b && b != c && a != c
    ensures First([Header(a, Some(x)), Header(b, Some(y)), Header(c, Some(z))], name) ==
              if name == a then Some(x) else if name == b then Some(y) else if name == c then Some(z) else None
  {
    FirstOf1(a, Some(x), name);
    FirstOf1(b, Some(y), name);
    FirstOf1(c, Some(z), name);
    FirstAppend(Of1(b, Some(y)), Of1(c, Some(z)), name);
    FirstAppend(Of1(a, Some(x)), Of1(b, Some(y)) + Of1(c, Some(z)), name);
    assert [Header(a, Some(x)), Header(b, Some(y)), Header(c, Some(z))]
        == Of1(a, Some(x)) + (Of1(b, Some(y)) + Of1(c, Some(z)));
  }

  lemma FirstManaged(c: Codec, row: Envelope, trace: Option<Trace>, name: string)
    requires row.identity.Some?
    ensures First(ManagedHeaders(c, row, trace), name) ==
              if Written(c, row, name).Some? then Written(c, row, name) else First(TraceHeaders(trace), name)
  {
    NamesApart();
    var three := [Header(MESSAGE_ID, Some(c.uuid(row.messageId))), Header(CORRELATION_ID, Some(c.uuid(row.correlationId))),
                  Header(OCCURRED_AT, Some(c.time(row.occurredAt)))];
    var key := Of1(IDEMPOTENCY_KEY, Some(Hex.Encoded(row.identity.value.key)));
    var source := if row.identity.value.source.Some?
                  then Some(CanonicalJson.Write(row.identity.value.source.value)) else None;
    var causation := if row.causationId.Some? then Some(c.uuid(row.causationId.value)) else None;
    FirstThree(MESSAGE_ID, CORRELATION_ID, OCCURRED_AT, c.uuid(row.messageId), c.uuid(row.correlationId),
               c.time(row.occurredAt), name);
    FirstOf1(IDEMPOTENCY_KEY, Some(Hex.Encoded(row.identity.value.key)), name);
    FirstOf1(IDEMPOTENCY_SOURCE, source, name);
    FirstOf1(CAUSATION_ID, causation, name);
    FirstAppend(three, key, name);
    FirstAppend(three + key, Of1(IDEMPOTENCY_SOURCE, source), name);
    FirstAppend(three + key + Of1(IDEMPOTENCY_SOURCE, source), Of1(CAUSATION_ID, causation), name);
    FirstAppend(three + key + Of1(IDEMPOTENCY_SOURCE, source) + Of1(CAUSATION_ID, causation), TraceHeaders(trace), name);
    assert ManagedHeaders(c, row, trace)
        == three + key + Of1(IDEMPOTENCY_SOURCE, source) + Of1(CAUSATION_ID, causation) + TraceHeaders(trace);
  }

  /** What enqueue accepted: no reserved key but the entity header it adds. */
  ghost predicate AcceptedHeaders(headers: map<string, string>) {
    forall k :: k in headers && IsReserved(k) ==> k == ENTITY_KEY
  }

  /** No user header shadows a managed or trace one, under any casing. */
  lemma {:induction false} UsersSkip(headers: map<string, string>, users: seq<Header>, name: string)
    requires (AcceptedHeaders(headers) && RESERVED_PREFIX <= name && name != ENTITY_KEY)
             || name == TRACEPARENT || name == TRACESTATE
    requires forall i :: 0 <= i < |users| ==> users[i].key in headers && !IsTrace(users[i].key)
    ensures First(users, name).None?
  {
    if users != [] {
      UsersSkip(headers, users[1..], name);
      ReservedAlike(users[0].key);
      OtherNames();
      LowerOfLower(ENTITY_KEY);
    }
  }

  lemma LookupFinds(c: Codec, row: Envelope, trace: Option<Trace>, users: seq<Header>, name: string)
    requires row.identity.Some? && AcceptedHeaders(row.headers) && UserBlock(row.headers, users)
    requires RESERVED_PREFIX <= name && name != ENTITY_KEY
    ensures Get(Of(users + ManagedHeaders(c, row, trace)).reserved, name) == Written(c, row, name)
  {
    ReservedIsFirst(users + ManagedHeaders(c, row, trace), name);
    FirstAppend(users, ManagedHeaders(c, row, trace), name);
    UsersSkip(row.headers, users, name);
    FirstManaged(c, row, trace, name);
    FirstTrace(trace, name);
    assert name[0] == 'k' && TRACEPARENT[0] == 't' && TRACESTATE[0] == 't';
  }

  lemma TraceFinds(c: Codec, row: Envelope, trace: Option<Trace>, users: seq<Header>, name: string)
    requires row.identity.Some? && UserBlock(row.headers, users) && (name == TRACEPARENT || name == TRACESTATE)
    ensures Get(Of(users + ManagedHeaders(c, row, trace)).trace, name) == First(TraceHeaders(trace), name)
  {
    TraceIsFirst(users + ManagedHeaders(c, row, trace), name);
    FirstAppend(users, ManagedHeaders(c, row, trace), name);
    UsersSkip(row.headers, users, name);
    FirstManaged(c, row, trace, name);
    NamesApart();
  }

  // ----- User headers -----------------------------------------------------------------------------------------

  lemma {:induction false} LastAppend(a: seq<Header>, b: seq<Header>, key: string)
    ensures Last(a + b, key) == if Last(b, key).Some? then Last(b, key) else Last(a, key)
  {
    if b == [] {
      assert a + b == a;
    } else {
      assert (a + b)[..|a + b| - 1] == a + b[..|b| - 1];
      LastAppend(a, b[..|b| - 1], key);
    }
  }

  lemma {:induction false} LastAbsent(headers: seq<Header>, key: string)
    requires forall i :: 0 <= i < |headers| ==> headers[i].key != key
    ensures Last(headers, key).None?
  {
    if headers != [] { LastAbsent(headers[..|headers| - 1], key); }
  }

  lemma {:induction false} LastPresent(headers: map<string, string>, users: seq<Header>, key: string)
    requires forall i :: 0 <= i < |users| ==> users[i].key in headers && users[i].value == Some(headers[users[i].key])
    requires exists i :: 0 <= i < |users| && users[i].key == key
    ensures key in headers && Last(users, key) == Some(headers[key])
  {
    var last := users[|users| - 1];
    if last.key != key {
      var i :| 0 <= i < |users| && users[i].key == key;
      assert users[..|users| - 1][i].key == key;
      LastPresent(headers, users[..|users| - 1], key);
    }
  }

  lemma ManagedKeys(c: Codec, row: Envelope, trace: Option<Trace>, i: nat)
    requires row.identity.Some? && i < |ManagedHeaders(c, row, trace)|
    ensures var key := ManagedHeaders(c, row, trace)[i].key; IsReserved(key) || IsTrace(key)
  {
    IdNames();
    KeyNames();
    OtherNames();
    TraceNames();
    ManagedIsReserved(MESSAGE_ID);
    ManagedIsReserved(CORRELATION_ID);
    ManagedIsReserved(OCCURRED_AT);
    ManagedIsReserved(IDEMPOTENCY_KEY);
    ManagedIsReserved(IDEMPOTENCY_SOURCE);
    ManagedIsReserved(CAUSATION_ID);
  }

  /** The user headers a handler sees: the stored ones that are neither reserved
      nor trace keys. */
  function UserHeaders(headers: map<string, string>): map<string, string> {
    map k | k in headers && !IsTrace(k) && !IsReserved(k) :: headers[k]
  }

  lemma UserFinds(c: Codec, row: Envelope, trace: Option<Trace>, users: seq<Header>)
    requires row.identity.Some? && UserBlock(row.headers, users)
    ensures Of(users + ManagedHeaders(c, row, trace)).user == UserHeaders(row.headers)
  {
    var managed := ManagedHeaders(c, row, trace);
    var user := Of(users + managed).user;
    forall k ensures Get(user, k) == Get(UserHeaders(row.headers), k) {
      UserIsLast(users + managed, k);
      LastAppend(users, managed, k);
      if !IsTrace(k) && !IsReserved(k) {
        forall i | 0 <= i < |managed| ensures managed[i].key != k {
          ManagedKeys(c, row, trace, i);
        }
        LastAbsent(managed, k);
        if k in row.headers {
          LastPresent(row.headers, users, k);
        } else {
          LastAbsent(users, k);
        }
      }
    }
    assert forall k :: k in user <==> Get(user, k).Some?;
  }

  // ----- The round trip -----------------------------------------------------------------------------------------

  lemma SourceSurvives(source: Json.Value)
    requires Json.Valid(source)
    ensures ParseSource(CanonicalJson.Write(source)) == Some(source)
  {
    assert CanonicalJson.Write(source) + "" == CanonicalJson.Write(source);
    CanonicalJson.ReadWrite(CanonicalJson.Write(source), source, "");
  }

  ghost predicate ValidIdentity(identity: Option<Identity>) {
    identity.Some? && |identity.value.key| == 32 && (identity.value.source.Some? ==> Json.Valid(identity.value.source.value))
  }

  lemma AcceptedIs(env: Envelope, entityKey: string, routed: bool)
    requires Enqueued(env, entityKey, routed).Success?
    ensures var row := Enqueued(env, entityKey, routed).value;
            && AcceptedHeaders(row.headers) && row == env.(headers := row.headers)
            && UserHeaders(row.headers) == map k | k in env.headers && !IsTrace(k) :: env.headers[k]
  {
    OtherNames();
    ManagedIsReserved(ENTITY_KEY);
  }

  /** For every envelope enqueue accepts, publishing and ingesting it gives back
      the same message, correlation and causation ids, time, idempotency identity
      and payload, and exactly the original headers without the trace keys,
      whatever order the user headers were published in. */
  lemma RoundTrip(c: Codec, topic: string, env: Envelope, entityKey: string, routed: bool, trace: Option<Trace>,
                  users: seq<Header>, key: Option<string>, made: Envelope)
    requires Sound(c) && ValidIdentity(env.identity) && c.decodes(env.payload)
    requires Enqueued(env, entityKey, routed).Success? && made.causationId.None?
    requires UserBlock(Enqueued(env, entityKey, routed).value.headers, users)
    ensures var row := Enqueued(env, entityKey, routed).value;
            var record := Record(topic, key, Some(row.payload), users + ManagedHeaders(c, row, trace));
            && Decoded(c, topic, record, made) ==
                 Success(env.(headers := map k | k in env.headers && !IsTrace(k) :: env.headers[k]))
            && Get(Of(record.headers).trace, TRACEPARENT) == (if trace.Some? then Some(trace.value.parent) else None)
            && Get(Of(record.headers).trace, TRACESTATE) == (if trace.Some? then trace.value.state else None)
  {
    var row := Enqueued(env, entityKey, routed).value;
    AcceptedIs(env, entityKey, routed);
    IdNames();
    KeyNames();
    OtherNames();
    EntityKeyApart();
    NamesApart();
    LookupFinds(c, row, trace, users, MESSAGE_ID);
    LookupFinds(c, row, trace, users, CORRELATION_ID);
    LookupFinds(c, row, trace, users, OCCURRED_AT);
    LookupFinds(c, row, trace, users, IDEMPOTENCY_KEY);
    LookupFinds(c, row, trace, users, IDEMPOTENCY_SOURCE);
    LookupFinds(c, row, trace, users, CAUSATION_ID);
    UserFinds(c, row, trace, users);
    TraceFinds(c, row, trace, users, TRACEPARENT);
    TraceFinds(c, row, trace, users, TRACESTATE);
    FirstTrace(trace, TRACEPARENT);
    FirstTrace(trace, TRACESTATE);
    Hex.DecodeEncode(env.identity.value.key);
    if env.identity.value.source.Some? {
      SourceSurvives(env.identity.value.source.value);
    }
  }
}
