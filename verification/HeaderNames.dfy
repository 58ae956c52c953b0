/**
 Kafka header keys: case folding and the reserved and trace namespaces.
 */
module HeaderNames {
  const RESERVED_PREFIX := "kafkaman-"
  const MESSAGE_ID := RESERVED_PREFIX + "message-id"
  const CORRELATION_ID := RESERVED_PREFIX + "correlation-id"
  const OCCURRED_AT := RESERVED_PREFIX + "occurred-at"
  const IDEMPOTENCY_KEY := RESERVED_PREFIX + "idempotency-key"
  const IDEMPOTENCY_SOURCE := RESERVED_PREFIX + "idempotency-source"
  const CAUSATION_ID := RESERVED_PREFIX + "causation-id"
  const ENTITY_KEY := RESERVED_PREFIX + "entity-key"
  const TRACEPARENT := "traceparent"
  const TRACESTATE := "tracestate"

  function LowerChar(c: char): char {
    if 'A' <= c <= 'Z' then (c as int + 32) as char else c
  }

  /** The letters at code points 65 to 90 fold to those 32 further on, which then fold to
      themselves, and nothing else changes. */
  lemma FoldsLettersOnly(c: char)
    ensures 65 <= c as int <= 90 ==> LowerChar(c) as int == c as int + 32
    ensures !(65 <= c as int <= 90) ==> LowerChar(c) == c
    ensures LowerChar(LowerChar(c)) == LowerChar(c)
  {}

  /** `to_ascii_lowercase`. */
  function Lower(s: string): (r: string)
    ensures |r| == |s| && forall i :: 0 <= i < |s| ==> r[i] == LowerChar(s[i])
  {
    seq(|s|, i requires 0 <= i < |s| => LowerChar(s[i]))
  }

  /** `is_trace_header`. */
  predicate IsTrace(key: string) {
    Lower(key) == TRACEPARENT || Lower(key) == TRACESTATE
  }

  /** The reserved namespace as enqueue tests it. */
  predicate IsReserved(key: string) {
    |key| >= |RESERVED_PREFIX| && Lower(key[..|RESERVED_PREFIX|]) == RESERVED_PREFIX
  }

  /** Enqueue and ingest draw the reserved namespace alike, and trace keys are
      outside it. */
  lemma ReservedAlike(key: string)
    ensures IsReserved(key) <==> RESERVED_PREFIX <= Lower(key)
    ensures IsReserved(key) ==> !IsTrace(key)
  {
    if |key| >= |RESERVED_PREFIX| {
      assert Lower(key[..|RESERVED_PREFIX|]) == Lower(key)[..|RESERVED_PREFIX|];
      assert IsReserved(key) ==> Lower(key)[0] == RESERVED_PREFIX[0];
    }
  }

  predicate AllLower(s: string) {
    forall i :: 0 <= i < |s| ==> !('A' <= s[i] <= 'Z')
  }

  lemma LowerOfLower(s: string)
    requires AllLower(s)
    ensures Lower(s) == s
  {}

  /** A managed name: its own lowercase form, in the reserved namespace. */
  predicate Managed(name: string) {
    AllLower(name) && RESERVED_PREFIX <= name
  }

  lemma SuffixManaged(suffix: string)
    requires AllLower(suffix)
    ensures Managed(RESERVED_PREFIX + suffix)
  {
    assert AllLower(RESERVED_PREFIX);
  }

  lemma IdNames()
    ensures Managed(MESSAGE_ID) && Managed(CORRELATION_ID) && Managed(CAUSATION_ID)
  {
    SuffixManaged("message-id");
    SuffixManaged("correlation-id");
    SuffixManaged("causation-id");
  }

  lemma KeyNames()
    ensures Managed(IDEMPOTENCY_KEY) && Managed(IDEMPOTENCY_SOURCE)
  {
    SuffixManaged("idempotency-key");
    SuffixManaged("idempotency-source");
  }

  lemma OtherNames()
    ensures Managed(OCCURRED_AT) && Managed(ENTITY_KEY)
  {
    SuffixManaged("occurred-at");
    SuffixManaged("entity-key");
  }

  lemma TraceNames()
    ensures Lower(TRACEPARENT) == TRACEPARENT && Lower(TRACESTATE) == TRACESTATE
    ensures IsTrace(TRACEPARENT) && IsTrace(TRACESTATE)
  {
    LowerOfLower(TRACEPARENT);
    LowerOfLower(TRACESTATE);
  }

  lemma ManagedIsReserved(name: string)
    requires Managed(name)
    ensures Lower(name) == name && IsReserved(name) && !IsTrace(name)
  {
    LowerOfLower(name);
    ReservedAlike(name);
  }

  lemma EntityKeyApart()
    ensures ENTITY_KEY != MESSAGE_ID && ENTITY_KEY != CORRELATION_ID && ENTITY_KEY != OCCURRED_AT
    ensures ENTITY_KEY != IDEMPOTENCY_KEY && ENTITY_KEY != IDEMPOTENCY_SOURCE && ENTITY_KEY != CAUSATION_ID
  {
    assert ENTITY_KEY[9] != MESSAGE_ID[9];
  }
}
