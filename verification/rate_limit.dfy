/** The fixed-window rate limiter of the schedule proxy, `enforceRateLimit`
    (src/pages/api/schedule.ts:305-321), and client identity resolution,
    `extractClientIp` (src/pages/api/schedule.ts:341-345). The process-wide
    bucket table is an explicit value passed in and returned, and the
    clock reading is a parameter. */
module RateLimit {
  import opened Optional
  import opened JsString

  const RateLimitMax := 30
  const RateLimitWindowMs := 60000
  const AnonymousClient := "anonymous"

  datatype RateBucket = RateBucket(count: int, resetAt: int)

  type RateTable = map<string, RateBucket>

  /** Every bucket has admitted between 1 and 30 requests of its window. */
  predicate WellFormed(table: RateTable) {
    forall ip :: ip in table ==> 1 <= table[ip].count <= RateLimitMax
  }

  datatype Admission = Admission(admitted: bool, table: RateTable)

  /** `enforceRateLimit`. With no bucket, or once `now` is past the bucket's
      reset time, a new window of 60 s is opened with a count of 1 and the
      request is admitted; inside a window that has already admitted 30
      requests it is refused and nothing changes; otherwise the count goes
      up by one and it is admitted. Other identities' buckets are never
      touched, and well-formedness is preserved. */
  function EnforceRateLimit(table: RateTable, ip: string, now: int): (r: Admission)
    ensures (ip !in table || now > table[ip].resetAt) ==>
      r.admitted && r.table == table[ip := RateBucket(1, now + RateLimitWindowMs)]
    ensures (ip in table && now <= table[ip].resetAt && table[ip].count >= RateLimitMax) ==>
      !r.admitted && r.table == table
    ensures (ip in table && now <= table[ip].resetAt && table[ip].count < RateLimitMax) ==>
      r.admitted && r.table == table[ip := RateBucket(table[ip].count + 1, table[ip].resetAt)]
    ensures r.table.Keys == table.Keys + {ip}
    ensures forall other :: other in table && other != ip ==> r.table[other] == table[other]
    ensures WellFormed(table) ==> WellFormed(r.table)
  {
    if ip !in table || now > table[ip].resetAt then
      Admission(true, table[ip := RateBucket(1, now + RateLimitWindowMs)])
    else if table[ip].count >= RateLimitMax then
      Admission(false, table)
    else
      Admission(true, table[ip := table[ip].(count := table[ip].count + 1)])
  }

  /** A run of requests from one identity at the given clock readings: the
      admission decisions in order, and the final table. Other identities'
      buckets are left as they were. */
  function Serve(table: RateTable, ip: string, times: seq<int>): (r: (seq<bool>, RateTable))
    ensures |r.0| == |times|
    ensures forall other :: other != ip ==> (other in r.1 <==> other in table)
    ensures forall other :: other in table && other != ip ==> r.1[other] == table[other]
    decreases |times|
  {
    if |times| == 0 then ([], table)
    else
      var first := EnforceRateLimit(table, ip, times[0]);
      var rest := Serve(first.table, ip, times[1..]);
      ([first.admitted] + rest.0, rest.1)
  }

  /** Inside one window (no reading past the bucket's reset time) the
      decisions are fixed by the count alone: the k-th further request is
      admitted exactly when fewer than 30 - k requests had been admitted, so
      a window never admits more than 30. The window itself is kept. */
  lemma {:induction false} WithinWindow(table: RateTable, ip: string, times: seq<int>)
    requires ip in table
    requires forall k :: 0 <= k < |times| ==> times[k] <= table[ip].resetAt
    ensures var (decisions, table') := Serve(table, ip, times);
      && (forall k :: 0 <= k < |times| ==> (decisions[k] <==> table[ip].count + k < RateLimitMax))
      && ip in table' && table'[ip].resetAt == table[ip].resetAt
    decreases |times|
  {
    if |times| > 0 {
      var first := EnforceRateLimit(table, ip, times[0]);
      WithinWindow(first.table, ip, times[1..]);
      var rest := Serve(first.table, ip, times[1..]);
      assert Serve(table, ip, times).0 == [first.admitted] + rest.0;
      forall k | 1 <= k < |times|
        ensures Serve(table, ip, times).0[k] <==> table[ip].count + k < RateLimitMax
      {
        assert times[1..][k - 1] == times[k];
        assert Serve(table, ip, times).0[k] == rest.0[k - 1];
      }
    }
  }

  /** From an identity with no live window, a burst of requests all within
      60 s of the first is admitted exactly for the first 30 requests: the
      31st and every later one are refused. */
  lemma FreshWindow(table: RateTable, ip: string, times: seq<int>)
    requires |times| > 0
    requires ip !in table || times[0] > table[ip].resetAt
    requires forall k :: 0 <= k < |times| ==> times[k] <= times[0] + RateLimitWindowMs
    ensures forall k :: 0 <= k < |times| ==> (Serve(table, ip, times).0[k] <==> k < RateLimitMax)
  {
    var first := EnforceRateLimit(table, ip, times[0]);
    assert first.table[ip] == RateBucket(1, times[0] + RateLimitWindowMs);
    WithinWindow(first.table, ip, times[1..]);
    var rest := Serve(first.table, ip, times[1..]);
    forall k | 1 <= k < |times|
      ensures Serve(table, ip, times).0[k] <==> k < RateLimitMax
    {
      assert Serve(table, ip, times).0[k] == rest.0[k - 1];
    }
  }

  /** A burst from one identity leaves another identity without a bucket
      free to be admitted. */
  lemma OtherIdentityAdmitted(table: RateTable, ip: string, times: seq<int>, other: string, now: int)
    requires other != ip && other !in table
    ensures EnforceRateLimit(Serve(table, ip, times).1, other, now).admitted
  {
  }

  /** The client headers the identity is drawn from, as `Headers.get`
      returns them. */
  datatype ClientHeaders = ClientHeaders(
    forwardedFor: Option<string>,
    realIp: Option<string>,
    connectingIp: Option<string>)

  /** The first non-empty candidate, or `fallback` when every candidate is
      empty. */
  function FirstNonEmpty(candidates: seq<string>, fallback: string): (r: string)
    ensures r == fallback || r in candidates
    ensures r != [] || fallback == []
    ensures || (exists k :: 0 <= k < |candidates| && candidates[k] != [] && r == candidates[k]
                 && forall j :: 0 <= j < k ==> candidates[j] == [])
            || (r == fallback && forall k :: 0 <= k < |candidates| ==> candidates[k] == [])
    decreases |candidates|
  {
    if |candidates| == 0 then fallback
    else if candidates[0] != [] then candidates[0]
    else FirstNonEmpty(candidates[1..], fallback)
  }

  /** The first entry of a forwarded-for list, trimmed. */
  function ForwardedClient(h: ClientHeaders): string {
    if h.forwardedFor.Some? then Trim(Split(h.forwardedFor.value, ',')[0]) else []
  }

  /** `extractClientIp`: the first non-empty of the first forwarded-for
      entry, the real-ip header and the connecting-ip header, else
      "anonymous". The identity is never empty. */
  function ExtractClientIp(h: ClientHeaders): (ip: string)
    ensures ip != []
    ensures ip == FirstNonEmpty([ForwardedClient(h), h.realIp.GetOr([]), h.connectingIp.GetOr([])], AnonymousClient)
  {
    var forwarded := ForwardedClient(h);
    var cs := [forwarded, h.realIp.GetOr([]), h.connectingIp.GetOr([])];
    assert cs[1..] == [h.realIp.GetOr([]), h.connectingIp.GetOr([])];
    assert cs[1..][1..] == [h.connectingIp.GetOr([])];
    assert cs[1..][1..][1..] == [];
    assert FirstNonEmpty(cs[1..][1..], AnonymousClient) ==
      if cs[2] != [] then cs[2] else FirstNonEmpty(cs[1..][1..][1..], AnonymousClient);
    if forwarded != [] then forwarded
    else if h.realIp.Some? && h.realIp.value != [] then h.realIp.value
    else if h.connectingIp.Some? && h.connectingIp.value != [] then h.connectingIp.value
    else AnonymousClient
  }

  /** The forwarded-for entry used is the text before the first comma, trimmed. */
  lemma ForwardedFirstEntry(h: ClientHeaders, first: string, rest: string)
    requires h.forwardedFor == Some(first + [','] + rest) && ',' !in first
    requires !IsBlank(first)
    ensures ExtractClientIp(h) == Trim(first)
  {
    SplitHead(first, ',', rest);
  }
}
