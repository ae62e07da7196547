/** Values shared by every script model: optional values, the outcome of a call
    into a foreign library (boto3, requests, slack_sdk), and a result that
    either carries a value or says why the operation raised. */
module Common {

  datatype Option<+T> = None | Some(value: T)

  /** What a call into code outside the model did: it answered with a value,
      or it raised an exception. */
  datatype Call<+T> = Answered(value: T) | Raised

  datatype Result<+T, +E> = Ok(value: T) | Err(error: E)

  /** Python truthiness of an optional string (a missing key, None and ""
      are all false). */
  predicate Truthy(s: Option<string>) {
    s.Some? && s.value != ""
  }

  /** `requests.Response.ok`: false exactly when `raise_for_status` raises,
      that is for a 4xx or 5xx status code. */
  predicate IsOk(status: int) {
    !(400 <= status < 600)
  }

  function GetOr<T>(o: Option<T>, default: T): (r: T)
    ensures o.None? ==> r == default
    ensures o.Some? ==> r == o.value
  {
    match o
    case Some(v) => v
    case None => default
  }

  /** Index of the first call that raised, or the number of calls when none did. */
  function FirstRaised<T>(calls: seq<Call<T>>): (k: nat)
    ensures k <= |calls|
    ensures forall j :: 0 <= j < k ==> calls[j].Answered?
    ensures k < |calls| ==> calls[k].Raised?
  {
    if calls == [] || calls[0].Raised? then 0 else 1 + FirstRaised(calls[1..])
  }

  /** The answers of the first `k` calls, all of which answered. */
  function Values<T>(calls: seq<Call<T>>, k: nat): (vs: seq<T>)
    requires k <= |calls|
    requires forall j :: 0 <= j < k ==> calls[j].Answered?
    ensures |vs| == k
    ensures forall j :: 0 <= j < k ==> vs[j] == calls[j].value
  {
    seq(k, j requires 0 <= j < k => calls[j].value)
  }

  lemma ValuesSnoc<T>(calls: seq<Call<T>>, k: nat)
    requires k < |calls|
    requires forall j :: 0 <= j <= k ==> calls[j].Answered?
    ensures Values(calls, k + 1) == Values(calls, k) + [calls[k].value]
  {
  }
}
