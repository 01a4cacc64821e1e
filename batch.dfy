/**
 * execute_requests_in_batches: requests are sent in consecutive batches of at
 * most 100; each batch's replies are collected by request id and appended to
 * the results in request order, with None for a request that failed and for
 * every request of a batch whose execution failed.
 *
 * The Drive is a script of answers, one per batch, in the order the batches
 * are executed.
 */
module Batch {
  import opened Wrappers
  import opened Text

  /** What the callback of one request receives. */
  datatype Callback<R> = Errored | Responded(response: R)

  /**
   * How executing one batch went: execute() raised, or it called back the
   * requests named in `calls`, by request id.
   */
  datatype BatchAnswer<R> = Crashed | Executed(calls: map<string, Callback<R>>)

  /** The answer to the b-th batch; once the script is exhausted, execute() raises. */
  function AnswerOf<R>(answers: seq<BatchAnswer<R>>, b: nat): BatchAnswer<R> {
    if b < |answers| then answers[b] else Crashed
  }

  /** The number of batches for n requests. */
  function NumBatches(n: nat): (nb: nat)
    ensures nb * 100 >= n && (nb == 0 || (nb - 1) * 100 < n)
  {
    (n + 99) / 100
  }

  /** The number of requests in batch b. */
  function Size(n: nat, b: nat): (k: nat)
    requires b < NumBatches(n)
    ensures 0 < k <= 100 && b * 100 + k <= n
    ensures k < 100 ==> b * 100 + k == n
  {
    if n - b * 100 < 100 then n - b * 100 else 100
  }

  /** requests[i:i + batch_size] for the b-th offset i. */
  function BatchOf<Q>(requests: seq<Q>, b: nat): (batch: seq<Q>)
    requires b < NumBatches(|requests|)
    ensures |batch| == Size(|requests|, b)
  {
    requests[b * 100 .. b * 100 + Size(|requests|, b)]
  }

  /** The ids a batch of k requests gets: str(len(request_map)) at each add. */
  function IdSet(k: nat): set<string> {
    set j | 0 <= j < k :: DecimalString(j)
  }

  /** A batch's answer is usable when every callback names a registered request; otherwise a callback raises KeyError inside execute(). */
  predicate Registered<R>(calls: map<string, Callback<R>>, k: nat) {
    forall id :: id in calls ==> id in IdSet(k)
  }

  /** The response stored for one request id: None unless its callback got a response. */
  function ResponseOf<R>(calls: map<string, Callback<R>>, id: string): (r: Option<R>)
    ensures r.Some? <==> id in calls && calls[id].Responded?
  {
    if id in calls && calls[id].Responded? then Some(calls[id].response) else None
  }

  /** The results one batch of k requests adds, in request order. */
  function BatchOutcome<R>(answer: BatchAnswer<R>, k: nat): (out: seq<Option<R>>)
    ensures |out| == k
    ensures answer.Crashed? ==> forall j :: 0 <= j < k ==> out[j].None?
    ensures answer.Executed? && Registered(answer.calls, k) ==>
              forall j :: 0 <= j < k ==> out[j] == ResponseOf(answer.calls, DecimalString(j))
  {
    if answer.Crashed? || !Registered(answer.calls, k) then seq(k, j => None)
    else seq(k, j requires 0 <= j < k => ResponseOf(answer.calls, DecimalString(j)))
  }

  function Min(a: nat, b: nat): nat { if a < b then a else b }

  /** The results of the first b batches of n requests, one after another. */
  function AllResults<R>(answers: seq<BatchAnswer<R>>, n: nat, b: nat): (r: seq<Option<R>>)
    requires b <= NumBatches(n)
    ensures |r| == Min(b * 100, n)
  {
    if b == 0 then []
    else AllResults(answers, n, b - 1) + BatchOutcome(AnswerOf(answers, b - 1), Size(n, b - 1))
  }

  /** Request p's result sits at position p and is what its batch's answer gave request p % 100. */
  lemma {:induction false} AllResultsAt<R>(answers: seq<BatchAnswer<R>>, n: nat, b: nat)
    requires b <= NumBatches(n)
    ensures forall p :: 0 <= p < |AllResults(answers, n, b)| ==>
              p / 100 < NumBatches(n) &&
              AllResults(answers, n, b)[p] == BatchOutcome(AnswerOf(answers, p / 100), Size(n, p / 100))[p % 100]
  {
    if b > 0 {
      AllResultsAt(answers, n, b - 1);
      var before := AllResults(answers, n, b - 1);
      var more := BatchOutcome(AnswerOf(answers, b - 1), Size(n, b - 1));
      var all := AllResults(answers, n, b);
      assert |before| == (b - 1) * 100 && all == before + more;
      forall p | 0 <= p < |all|
        ensures p / 100 < NumBatches(n) && all[p] == BatchOutcome(AnswerOf(answers, p / 100), Size(n, p / 100))[p % 100]
      {
        if p < |before| {
          assert all[p] == before[p];
        } else {
          DivInBatch(p, b - 1);
          assert all[p] == more[p - |before|];
        }
      }
    }
  }

  lemma DivInBatch(p: nat, b: nat)
    requires b * 100 <= p < b * 100 + 100
    ensures p / 100 == b && p % 100 == p - b * 100
  {
  }

  /** The progress calls made before the first b batches: each batch's start offset. */
  function Offsets(n: nat, b: nat): (calls: seq<(nat, nat)>)
    ensures |calls| == b
    ensures forall k :: 0 <= k < b ==> calls[k] == (k * 100, n)
  {
    if b == 0 then [] else Offsets(n, b - 1) + [((b - 1) * 100, n)]
  }

  /** The progress calls: each batch's start offset, then (total, total). */
  function Progress(n: nat): (calls: seq<(nat, nat)>)
    ensures |calls| == NumBatches(n) + 1
    ensures forall b :: 0 <= b < NumBatches(n) ==> calls[b] == (b * 100, n)
    ensures calls[NumBatches(n)] == (n, n)
  {
    Offsets(n, NumBatches(n)) + [(n, n)]
  }

  /**
   * execute_requests_in_batches(requests): the results of every batch in
   * order, and the progress calls made when a callback is given.
   */
  method ExecuteRequestsInBatches<Q, R>(requests: seq<Q>, answers: seq<BatchAnswer<R>>, reportProgress: bool)
    returns (results: seq<Option<R>>, progress: seq<(nat, nat)>)
    ensures results == AllResults(answers, |requests|, NumBatches(|requests|))
    ensures progress == if reportProgress then Progress(|requests|) else []
  {
    var total := |requests|;
    results := [];
    progress := [];
    var i := 0;
    var b := 0;
    while i < total
      invariant b <= NumBatches(total) && i == b * 100
      invariant results == AllResults(answers, total, b)
      invariant progress == if reportProgress then Offsets(total, b) else []
    {
      if reportProgress {
        var call: (nat, nat) := (i, total);
        progress := progress + [call];
      }
      var outcome := ExecuteSlice(requests, i, b, AnswerOf(answers, b));
      results := results + outcome;
      i := i + 100;
      b := b + 1;
    }
    assert b == NumBatches(total);
    if reportProgress {
      var call: (nat, nat) := (total, total);
      progress := progress + [call];
    }
  }

  /** One pass of that loop: the slice starting at i is registered and executed. */
  method ExecuteSlice<Q, R>(requests: seq<Q>, i: nat, b: nat, answer: BatchAnswer<R>) returns (outcome: seq<Option<R>>)
    requires b < NumBatches(|requests|) && i == b * 100
    ensures outcome == BatchOutcome(answer, Size(|requests|, b))
  {
    var batchRequests := requests[i .. Min(i + 100, |requests|)];
    assert batchRequests == BatchOf(requests, b);
    var requestMap := RegisterRequests(batchRequests);
    outcome := ExecuteBatch(requestMap, |batchRequests|, answer);
  }

  /** request_map after each request of the batch is added under str(len(request_map)). */
  method RegisterRequests<Q>(batch: seq<Q>) returns (requestMap: map<string, Q>)
    ensures requestMap.Keys == IdSet(|batch|)
    ensures forall j :: 0 <= j < |batch| ==> requestMap[DecimalString(j)] == batch[j]
  {
    requestMap := map[];
    var j := 0;
    while j < |batch|
      invariant j <= |batch|
      invariant requestMap.Keys == IdSet(j)
      invariant forall l :: 0 <= l < j ==> requestMap[DecimalString(l)] == batch[l]
    {
      var id := DecimalString(j);
      IdSetNext(j);
      requestMap := requestMap[id := batch[j]];
      forall l | 0 <= l < j + 1
        ensures requestMap[DecimalString(l)] == batch[l]
      {
        if l < j {
          assert DecimalString(l) in IdSet(j);
        }
      }
      j := j + 1;
    }
  }

  /** The next id is new, and joins the ids so far. */
  lemma IdSetNext(j: nat)
    ensures DecimalString(j) !in IdSet(j)
    ensures IdSet(j + 1) == IdSet(j) + {DecimalString(j)}
  {
    if DecimalString(j) in IdSet(j) {
      var l :| 0 <= l < j && DecimalString(l) == DecimalString(j);
      DecimalStringInjective(l, j);
    }
  }

  /**
   * Executing one registered batch: None for every request if execute()
   * raises, otherwise each request's response read back by id in ascending
   * numeric order.
   */
  method ExecuteBatch<Q, R>(requestMap: map<string, Q>, k: nat, answer: BatchAnswer<R>) returns (outcome: seq<Option<R>>)
    requires requestMap.Keys == IdSet(k)
    ensures outcome == BatchOutcome(answer, k)
  {
    if answer.Crashed? || !Registered(answer.calls, k) {
      outcome := seq(k, j => None);
      return;
    }
    var responses := map id | id in requestMap :: ResponseOf(answer.calls, id);
    outcome := [];
    var j := 0;
    while j < k
      invariant j <= k
      invariant outcome == BatchOutcome(answer, k)[..j]
    {
      assert DecimalString(j) in IdSet(k);
      outcome := outcome + [responses[DecimalString(j)]];
      j := j + 1;
    }
  }

  // ================================================================ properties

  /** The batches, one after another, give back the requests. */
  function Joined<Q>(requests: seq<Q>, b: nat): (joined: seq<Q>)
    requires b <= NumBatches(|requests|)
    ensures joined == requests[..Min(b * 100, |requests|)]
  {
    if b == 0 then []
    else
      var before := Joined(requests, b - 1);
      assert requests[..Min(b * 100, |requests|)] == before + BatchOf(requests, b - 1);
      before + BatchOf(requests, b - 1)
  }

  /** The slices cover the requests exactly, and none is empty or longer than 100. */
  lemma BatchesCover<Q>(requests: seq<Q>)
    ensures Joined(requests, NumBatches(|requests|)) == requests
    ensures forall b :: 0 <= b < NumBatches(|requests|) ==> 0 < |BatchOf(requests, b)| <= 100
  {
    assert requests[..|requests|] == requests;
  }

  /**
   * One result per request, in request order: request p's result is what its
   * batch's answer gave it, None when that batch crashed or its callback
   * reported an error.
   */
  lemma ResultsPerRequest<R>(answers: seq<BatchAnswer<R>>, n: nat, p: nat)
    requires p < n
    ensures var r := AllResults(answers, n, NumBatches(n));
            var answer := AnswerOf(answers, p / 100);
            var id := DecimalString(p % 100);
            && |r| == n
            && (answer.Crashed? ==> r[p].None?)
            && (answer.Executed? && Registered(answer.calls, Size(n, p / 100)) ==>
                  r[p] == ResponseOf(answer.calls, id))
            && (answer.Executed? && id in answer.calls && answer.calls[id].Errored? ==> r[p].None?)
  {
    var r := AllResults(answers, n, NumBatches(n));
    AllResultsAt(answers, n, NumBatches(n));
    assert p < |r|;
  }

  /**
   * Sorting a batch's request ids numerically gives insertion order: the
   * j-th id reads back as j, so the ids are distinct and ascend.
   */
  lemma IdsInOrder(k: nat)
    ensures forall j :: 0 <= j < k ==> ParseDecimal(DecimalString(j)) == j
    ensures forall j, l :: 0 <= j < l < k ==> DecimalString(j) != DecimalString(l)
  {
    forall j | 0 <= j < k
      ensures ParseDecimal(DecimalString(j)) == j
    {
      ParseDecimalString(j);
    }
    forall j, l | 0 <= j < l < k
      ensures DecimalString(j) != DecimalString(l)
    {
      if DecimalString(j) == DecimalString(l) {
        DecimalStringInjective(j, l);
      }
    }
  }
}
