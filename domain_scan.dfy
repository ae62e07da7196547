/** is_domain_available.py: the availability check with its rate-limit
    back-off, and the scan of every two-letter `.ai` name. A wait of 0.1 s
    is one tick. `replies[i]` is what the i-th request did: answered with a
    response, or raised. */
module DomainAvailability {
  import opened Common
  import opened Seqs

  /** One response of the availability endpoint: its status code, the
      truthiness of its "available" field, and its optional retryAfterSec. */
  datatype AvailabilityReply = AvailabilityReply(status: int, available: bool, retryAfterSec: Option<nat>)

  /** A request ends the polling when it raised (the request itself, the
      decoding of its JSON body, or the lookup of "available") or when it was
      answered with status 200. */
  predicate Stops(reply: Call<AvailabilityReply>) {
    reply.Raised? || reply.value.status == 200
  }

  /** The index of the first request that ends the polling, or |replies| if none. */
  function StopAt(replies: seq<Call<AvailabilityReply>>): (k: nat)
    ensures k <= |replies|
    ensures forall j :: 0 <= j < k ==> !Stops(replies[j])
    ensures k < |replies| ==> Stops(replies[k])
  {
    if replies == [] || Stops(replies[0]) then 0 else 1 + StopAt(replies[1..])
  }

  /** The ticks waited before the request that follows a refused one:
      `retryAfterSec * 10`, or none when the hint is absent. */
  function RetryTicks(reply: AvailabilityReply): nat {
    match reply.retryAfterSec
    case Some(s) => 10 * s
    case None => 0
  }

  /** What `is_available` does for the given replies: returns the "available"
      field of the first 200 response, or raises (None). */
  function Availability(replies: seq<Call<AvailabilityReply>>): Option<bool>
    requires StopAt(replies) < |replies|
  {
    match replies[StopAt(replies)]
    case Raised => None
    case Answered(r) => Some(r.available)
  }

  /** `is_available`: `waits[i]` is the number of ticks slept before request
      i. One request per reply up to and including the first that raised or
      was answered with 200; for a 200 its "available" field is returned, and
      a raise is None. One tick before the first request, and before each
      later one exactly the ticks the previous response asked for. */
  method IsAvailable(replies: seq<Call<AvailabilityReply>>) returns (available: Option<bool>, waits: seq<nat>)
    requires StopAt(replies) < |replies|
    ensures |waits| == StopAt(replies) + 1
    ensures waits[0] == 1
    ensures forall k :: 0 < k < |waits| ==> replies[k - 1].Answered? && waits[k] == RetryTicks(replies[k - 1].value)
    ensures available.None? <==> replies[|waits| - 1].Raised?
    ensures available.Some? ==> replies[|waits| - 1].value.status == 200 && available.value == replies[|waits| - 1].value.available
  {
    var cnt: nat := 1;
    waits := [];
    var i := 0;
    while true
      invariant i <= StopAt(replies)
      invariant |waits| == i
      invariant i > 0 ==> waits[0] == 1
      invariant forall k :: 0 < k < i ==> waits[k] == RetryTicks(replies[k - 1].value)
      invariant cnt == if i == 0 then 1 else RetryTicks(replies[i - 1].value)
      decreases StopAt(replies) - i
    {
      var ticks := 0;
      while cnt != 0
        invariant ticks + cnt == if i == 0 then 1 else RetryTicks(replies[i - 1].value)
        decreases cnt
      {
        ticks := ticks + 1;   // time.sleep(0.1)
        cnt := cnt - 1;
      }
      waits := waits + [ticks];
      match replies[i]
      case Raised =>
        return None, waits;
      case Answered(response) =>
        if response.status == 200 {
          return Some(response.available), waits;
        }
        if response.retryAfterSec.Some? {
          cnt := response.retryAfterSec.value * 10;
        }
      i := i + 1;
    }
  }

  /** `is_available` and its specification agree. */
  lemma AvailabilityIsFinalReply(replies: seq<Call<AvailabilityReply>>)
    requires StopAt(replies) < |replies|
    ensures Availability(replies).None? <==> exists j :: 0 <= j < |replies| && replies[j].Raised? && forall i :: 0 <= i < j ==> !Stops(replies[i])
    ensures Availability(replies) == Some(true) <==>
      exists j :: 0 <= j < |replies| && replies[j].Answered? && replies[j].value.status == 200 && replies[j].value.available
        && forall i :: 0 <= i < j ==> !Stops(replies[i])
  {
    var k := StopAt(replies);
    forall j | 0 <= j < |replies| && Stops(replies[j]) && (forall i :: 0 <= i < j ==> !Stops(replies[i]))
      ensures j == k
    {
    }
  }

  /** The i-th lower-case letter. */
  function Letter(i: int): char
    requires 0 <= i < 26
  {
    ('a' as int + i) as char
  }

  function AiName(i: int, j: int): string
    requires 0 <= i < 26 && 0 <= j < 26
  {
    [Letter(i), Letter(j)] + ".ai"
  }

  /** The names the scan checks, in the order it checks them. */
  function TwoLetterAi(): (names: seq<string>)
    ensures |names| == 676
    ensures forall n :: 0 <= n < 676 ==> names[n] == AiName(n / 26, n % 26)
  {
    seq(676, n requires 0 <= n < 676 => AiName(n / 26, n % 26))
  }

  /** Name `26 * i + j` is letter i followed by letter j and ".ai". */
  lemma TwoLetterAiAt(i: int, j: int)
    requires 0 <= i < 26 && 0 <= j < 26
    ensures 26 * i + j < 676
    ensures TwoLetterAi()[26 * i + j] == [Letter(i), Letter(j)] + ".ai"
  {
    var n := 26 * i + j;
    assert n / 26 == i && n % 26 == j;
  }

  /** The test the scan keeps a name by: `is_available` on that name's
      replies returned True. */
  function AvailableTest(replies: string -> seq<Call<AvailabilityReply>>): string -> bool {
    (d: string) => StopAt(replies(d)) < |replies(d)| && Availability(replies(d)) == Some(true)
  }

  /** `is_available` on these replies raises. */
  predicate CheckRaises(replies: seq<Call<AvailabilityReply>>) {
    StopAt(replies) < |replies| && replies[StopAt(replies)].Raised?
  }

  /** The test of a name whose check raises. */
  function RaisesTest(replies: string -> seq<Call<AvailabilityReply>>): string -> bool {
    (d: string) => CheckRaises(replies(d))
  }

  /** No name's check raises exactly when no name passes `RaisesTest`. */
  lemma {:induction false} NoneRaised(replies: string -> seq<Call<AvailabilityReply>>, names: seq<string>)
    ensures Filter(names, RaisesTest(replies)) == [] <==> forall n :: 0 <= n < |names| ==> !CheckRaises(replies(names[n]))
  {
    forall n | 0 <= n < |names|
      ensures CheckRaises(replies(names[n])) ==> names[n] in Filter(names, RaisesTest(replies))
    {
      FilterMembership(names, RaisesTest(replies), names[n]);
    }
    if Filter(names, RaisesTest(replies)) != [] {
      var d := Filter(names, RaisesTest(replies))[0];
      FilterMembership(names, RaisesTest(replies), d);
    }
  }

  /** `__main__`'s scan: `replies(d)` are the replies the requests for `d`
      get. A check that raises ends the script before anything is reported
      (None); otherwise `ok` holds exactly the available names, in the
      checking order. */
  method ScanTwoLetterAi(replies: string -> seq<Call<AvailabilityReply>>) returns (ok: Option<seq<string>>)
    requires forall d :: StopAt(replies(d)) < |replies(d)|
    ensures ok.None? <==> exists n :: 0 <= n < 676 && CheckRaises(replies(TwoLetterAi()[n]))
    ensures ok.Some? ==> ok.value == Filter(TwoLetterAi(), AvailableTest(replies))
  {
    var found := [];
    var names := TwoLetterAi();
    for l1 := 'a' as int to 'z' as int + 1
      invariant found == Filter(names[..26 * (l1 - 'a' as int)], AvailableTest(replies))
      invariant Filter(names[..26 * (l1 - 'a' as int)], RaisesTest(replies)) == []
    {
      for l2 := 'a' as int to 'z' as int + 1
        invariant found == Filter(names[..26 * (l1 - 'a' as int) + (l2 - 'a' as int)], AvailableTest(replies))
        invariant Filter(names[..26 * (l1 - 'a' as int) + (l2 - 'a' as int)], RaisesTest(replies)) == []
      {
        var domain := [l1 as char, l2 as char] + ".ai";
        var n := 26 * (l1 - 'a' as int) + (l2 - 'a' as int);
        TwoLetterAiAt(l1 - 'a' as int, l2 - 'a' as int);
        FilterSnoc(names, n, AvailableTest(replies));
        FilterSnoc(names, n, RaisesTest(replies));
        var available, _ := IsAvailable(replies(domain));
        if available.None? {
          assert CheckRaises(replies(TwoLetterAi()[n]));
          return None;
        }
        if available.value {
          found := found + [domain];
        }
      }
    }
    assert names[..676] == names;
    NoneRaised(replies, names);
    ok := Some(found);
  }

  /** Python's `<` on strings: code point by code point, a proper prefix first. */
  predicate LexLess(a: string, b: string) {
    b != [] && (a == [] || a[0] < b[0] || (a[0] == b[0] && LexLess(a[1..], b[1..])))
  }

  /** The scan checks its names in strictly increasing lexicographic order
      (so each name once). */
  lemma TwoLetterAiSorted(m: nat, n: nat)
    requires m < n < 676
    ensures LexLess(TwoLetterAi()[m], TwoLetterAi()[n])
  {
    var a, b := TwoLetterAi()[m], TwoLetterAi()[n];
    assert m / 26 <= n / 26;
    if m / 26 == n / 26 {
      assert m % 26 < n % 26;
      assert a[0] == b[0] && a[1..][0] < b[1..][0];
    }
  }

  /** Every two-letter `.ai` name is checked. */
  lemma TwoLetterAiComplete(c1: char, c2: char)
    requires 'a' <= c1 <= 'z' && 'a' <= c2 <= 'z'
    ensures [c1, c2] + ".ai" in TwoLetterAi()
  {
    TwoLetterAiAt(c1 as int - 'a' as int, c2 as int - 'a' as int);
  }

  /** The names kept are exactly the available ones, in checking order. */
  lemma ScanKeepsAvailableInOrder(replies: string -> seq<Call<AvailabilityReply>>, d: string)
    ensures d in Filter(TwoLetterAi(), AvailableTest(replies)) <==> d in TwoLetterAi() && AvailableTest(replies)(d)
    ensures SubSeq(Filter(TwoLetterAi(), AvailableTest(replies)), TwoLetterAi())
  {
    FilterMembership(TwoLetterAi(), AvailableTest(replies), d);
    FilterIsSubSeq(TwoLetterAi(), AvailableTest(replies));
  }
}
