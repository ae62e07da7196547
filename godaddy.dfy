/** godaddy.py: the `GoDaddy` client's session headers and its three
    A-record operations. Each operation checks its arguments, builds the
    record URL (and for PUT the payload), issues at most one request and
    classifies the response's status. The foreign `validators.domain`,
    `validators.ipv4` and `tldextract.extract` are parameters, and what the
    session's request did (answered with a response, or raised) is an input. */
module GoDaddy {
  import opened Common

  /** `tldextract.extract(name)`: the registered domain and the subdomain. */
  datatype DomainParts = DomainParts(registeredDomain: string, subdomain: string)

  /** The foreign checks and the domain split the client calls. */
  datatype Oracles = Oracles(isDomain: string -> bool, isIPv4: string -> bool, extract: string -> DomainParts)

  /** One A record as the API sends and receives it: data, name, ttl, type. */
  datatype ARecord = ARecord(data: string, name: string, ttl: int, rtype: string)

  datatype HttpMethod = Get | Put | Delete

  /** An HTTP request the session sends: method, URL, the session's headers
      and, for PUT, the JSON payload. */
  datatype Request = Request(verb: HttpMethod, url: string, headers: map<string, string>, payload: Option<seq<ARecord>>)

  /** What the server answers: the status code and, for a GET, the record list of its JSON body. */
  datatype Response = Response(status: int, records: seq<ARecord>)

  datatype GoDaddyError =
    | InvalidDomain          // raised before any request
    | InvalidIPv4            // raised before any request
    | RequestFailed(status: int)
    | CallRaised             // the session's request, or decoding its JSON body, raised

  /** The requests an operation issued and what it returned or raised. */
  datatype Outcome<T> = Outcome(requests: seq<Request>, result: Result<T, GoDaddyError>)

  const ApiBase: string := "https://api.godaddy.com/v1/domains/"
  const ApiMarker: string := "/records/A/"

  /** The record URL all three operations use: the API base, the registered
      domain, the A-record marker and the subdomain, in that order. */
  function RecordsUrl(parts: DomainParts): (url: string)
    ensures |url| == |ApiBase| + |parts.registeredDomain| + |ApiMarker| + |parts.subdomain|
    ensures url[..|ApiBase|] == ApiBase
    ensures url[|ApiBase|..|ApiBase| + |parts.registeredDomain|] == parts.registeredDomain
    ensures url[|ApiBase| + |parts.registeredDomain|..|url| - |parts.subdomain|] == ApiMarker
    ensures url[|url| - |parts.subdomain|..] == parts.subdomain
  {
    ApiBase + parts.registeredDomain + ApiMarker + parts.subdomain
  }

  /** Reads a record URL back into the registered domain and subdomain it names. */
  function ParseRecordsUrl(url: string): Option<DomainParts> {
    if |url| < |ApiBase| || url[..|ApiBase|] != ApiBase then None
    else
      var rest := url[|ApiBase|..];
      match IndexOf(rest, '/')
      case None => None
      case Some(k) =>
        var tail := rest[k..];
        if |tail| < |ApiMarker| || tail[..|ApiMarker|] != ApiMarker then None
        else Some(DomainParts(rest[..k], tail[|ApiMarker|..]))
  }

  /** The URL names its registered domain and subdomain unambiguously when
      the registered domain has no '/' (a domain name never does). */
  lemma RecordsUrlRoundTrip(parts: DomainParts)
    requires '/' !in parts.registeredDomain
    ensures ParseRecordsUrl(RecordsUrl(parts)) == Some(parts)
  {
    var d := parts.registeredDomain;
    var tail := ApiMarker + parts.subdomain;
    var rest := d + tail;
    assert RecordsUrl(parts) == ApiBase + rest;
    Split(ApiBase, rest);
    Split(d, tail);
    assert rest[|d|] == tail[0] == '/';
    IndexOfAt(rest, '/', |d|);
    Split(ApiMarker, parts.subdomain);
  }

  lemma Split<T>(a: seq<T>, b: seq<T>)
    ensures (a + b)[..|a|] == a && (a + b)[|a|..] == b
  {
  }

  /** The PUT body `set_dns_A_record` sends. */
  function APayload(parts: DomainParts, ipv4: string): (p: seq<ARecord>)
    ensures |p| == 1
    ensures p[0] == ARecord(ipv4, parts.subdomain, 1800, "A")
  {
    [ARecord(ipv4, parts.subdomain, 1800, "A")]
  }

  /** The session's Authorization value: "sso-key ", then key and secret
      joined by a colon. */
  function AuthorizationHeader(apiKey: string, apiSecret: string): (h: string)
    ensures |h| == 9 + |apiKey| + |apiSecret|
    ensures h[..8] == "sso-key "
    ensures h[8..8 + |apiKey|] == apiKey && h[8 + |apiKey|] == ':'
    ensures h[9 + |apiKey|..] == apiSecret
  {
    "sso-key " + apiKey + ":" + apiSecret
  }

  /** The position of the first `c` in `s`, if any. */
  function IndexOf(s: string, c: char): (r: Option<nat>)
    ensures r.None? <==> c !in s
    ensures r.Some? ==> r.value < |s| && s[r.value] == c && c !in s[..r.value]
  {
    if s == [] then None
    else if s[0] == c then Some(0)
    else match IndexOf(s[1..], c)
      case None => None
      case Some(k) => assert s[..k + 1] == [s[0]] + s[1..][..k]; Some(k + 1)
  }

  /** Reads an `sso-key KEY:SECRET` header back into its key and secret. */
  function ParseSsoKey(h: string): Option<(string, string)> {
    if |h| < 8 || h[..8] != "sso-key " then None
    else
      var rest := h[8..];
      match IndexOf(rest, ':')
      case None => None
      case Some(k) => Some((rest[..k], rest[k + 1..]))
  }

  lemma {:induction false} IndexOfAt(s: string, c: char, n: nat)
    requires n < |s| && s[n] == c && c !in s[..n]
    ensures IndexOf(s, c) == Some(n)
  {
    if n > 0 {
      assert s[1..][..n - 1] == s[..n][1..];
      IndexOfAt(s[1..], c, n - 1);
    }
  }

  /** The header carries the key and the secret recoverably, as long as the
      key has no ':' of its own. */
  lemma AuthorizationRoundTrip(apiKey: string, apiSecret: string)
    requires ':' !in apiKey
    ensures ParseSsoKey(AuthorizationHeader(apiKey, apiSecret)) == Some((apiKey, apiSecret))
  {
    var h := AuthorizationHeader(apiKey, apiSecret);
    var rest := apiKey + ":" + apiSecret;
    assert h[..8] == "sso-key " && h[8..] == rest;
    assert rest[..|apiKey|] == apiKey;
    IndexOfAt(rest, ':', |apiKey|);
    assert rest[|apiKey| + 1..] == apiSecret;
  }

  class Client {
    /** The session's header dictionary. */
    var headers: map<string, string>

    /** `GoDaddy.__init__`: the session's headers, updated with the
        Authorization and content-type entries. */
    constructor (apiKey: string, apiSecret: string, sessionDefaults: map<string, string>)
      ensures headers.Keys == sessionDefaults.Keys + {"Authorization", "content-type"}
      ensures headers["Authorization"] == AuthorizationHeader(apiKey, apiSecret)
      ensures headers["content-type"] == "application/json"
      ensures forall k :: k in sessionDefaults && k != "Authorization" && k != "content-type" ==> headers[k] == sessionDefaults[k]
    {
      headers := sessionDefaults["Authorization" := AuthorizationHeader(apiKey, apiSecret)]["content-type" := "application/json"];
    }

    /** `get_dns_A_records`: the server's response, or an error for an
        invalid name (before any request), a request that raised, or a status
        that is not ok. The body is decoded for the debug line, so a body
        that is not JSON raises too (part of `Raised`). */
    function GetDnsARecords(o: Oracles, dnsName: string, resp: Call<Response>): (out: Outcome<Response>)
      reads this
      ensures !o.isDomain(dnsName) ==> out == Outcome([], Err(InvalidDomain))
      ensures o.isDomain(dnsName) ==> out.requests == [Request(Get, RecordsUrl(o.extract(dnsName)), headers, None)]
      ensures o.isDomain(dnsName) && resp.Raised? ==> out.result == Err(CallRaised)
      ensures o.isDomain(dnsName) && resp.Answered? ==>
        out.result == if IsOk(resp.value.status) then Ok(resp.value) else Err(RequestFailed(resp.value.status))
    {
      if !o.isDomain(dnsName) then Outcome([], Err(InvalidDomain))
      else
        var url := RecordsUrl(o.extract(dnsName));
        var requests := [Request(Get, url, headers, None)];
        match resp
        case Raised => Outcome(requests, Err(CallRaised))
        case Answered(r) =>
          if !IsOk(r.status) then Outcome(requests, Err(RequestFailed(r.status)))
          else Outcome(requests, Ok(r))
    }

    /** `set_dns_A_record`: the domain is checked, then the IPv4 literal,
        and only then one PUT with a one-record payload is sent. */
    function SetDnsARecord(o: Oracles, dnsName: string, ipv4: string, resp: Call<Response>): (out: Outcome<()>)
      reads this
      ensures !o.isDomain(dnsName) ==> out == Outcome([], Err(InvalidDomain))
      ensures o.isDomain(dnsName) && !o.isIPv4(ipv4) ==> out == Outcome([], Err(InvalidIPv4))
      ensures o.isDomain(dnsName) && o.isIPv4(ipv4) ==>
        var parts := o.extract(dnsName);
        out.requests == [Request(Put, RecordsUrl(parts), headers, Some(APayload(parts, ipv4)))]
      ensures o.isDomain(dnsName) && o.isIPv4(ipv4) && resp.Raised? ==> out.result == Err(CallRaised)
      ensures o.isDomain(dnsName) && o.isIPv4(ipv4) && resp.Answered? ==>
        out.result == if IsOk(resp.value.status) then Ok(()) else Err(RequestFailed(resp.value.status))
    {
      if !o.isDomain(dnsName) then Outcome([], Err(InvalidDomain))
      else if !o.isIPv4(ipv4) then Outcome([], Err(InvalidIPv4))
      else
        var parts := o.extract(dnsName);
        var requests := [Request(Put, RecordsUrl(parts), headers, Some(APayload(parts, ipv4)))];
        match resp
        case Raised => Outcome(requests, Err(CallRaised))
        case Answered(r) =>
          if !IsOk(r.status) then Outcome(requests, Err(RequestFailed(r.status)))
          else Outcome(requests, Ok(()))
    }

    /** `delete_dns_A_record`: an ok status or 404 ("already absent") is
        success; any other status raises, as does the request itself. */
    function DeleteDnsARecord(o: Oracles, dnsName: string, resp: Call<Response>): (out: Outcome<()>)
      reads this
      ensures !o.isDomain(dnsName) ==> out == Outcome([], Err(InvalidDomain))
      ensures o.isDomain(dnsName) ==> out.requests == [Request(Delete, RecordsUrl(o.extract(dnsName)), headers, None)]
      ensures o.isDomain(dnsName) && resp.Raised? ==> out.result == Err(CallRaised)
      ensures o.isDomain(dnsName) && resp.Answered? ==>
        out.result == if IsOk(resp.value.status) || resp.value.status == 404 then Ok(()) else Err(RequestFailed(resp.value.status))
    {
      if !o.isDomain(dnsName) then Outcome([], Err(InvalidDomain))
      else
        var requests := [Request(Delete, RecordsUrl(o.extract(dnsName)), headers, None)];
        match resp
        case Raised => Outcome(requests, Err(CallRaised))
        case Answered(r) =>
          if !IsOk(r.status) && r.status != 404 then Outcome(requests, Err(RequestFailed(r.status)))
          else Outcome(requests, Ok(()))
    }
  }

  /** No operation issues a request for a name that is not a valid domain,
      and SetDnsARecord issues none for an invalid IPv4 literal either. */
  lemma ValidationPrecedesRequests(c: Client, o: Oracles, dnsName: string, ipv4: string, resp: Call<Response>)
    ensures !o.isDomain(dnsName) ==>
      c.GetDnsARecords(o, dnsName, resp).requests == [] &&
      c.SetDnsARecord(o, dnsName, ipv4, resp).requests == [] &&
      c.DeleteDnsARecord(o, dnsName, resp).requests == []
    ensures !o.isIPv4(ipv4) ==> c.SetDnsARecord(o, dnsName, ipv4, resp).requests == []
    ensures |c.GetDnsARecords(o, dnsName, resp).requests| <= 1
    ensures |c.SetDnsARecord(o, dnsName, ipv4, resp).requests| <= 1
    ensures |c.DeleteDnsARecord(o, dnsName, resp).requests| <= 1
  {
  }

  /** GET, PUT and DELETE of one name target the same URL, which is built
      from the registered domain and subdomain of that name. */
  lemma SameRecordUrl(c: Client, o: Oracles, dnsName: string, ipv4: string, r1: Call<Response>, r2: Call<Response>, r3: Call<Response>)
    requires o.isDomain(dnsName) && o.isIPv4(ipv4)
    ensures var g := c.GetDnsARecords(o, dnsName, r1).requests;
      var p := c.SetDnsARecord(o, dnsName, ipv4, r2).requests;
      var d := c.DeleteDnsARecord(o, dnsName, r3).requests;
      |g| == |p| == |d| == 1 && g[0].url == p[0].url == d[0].url
      && g[0].url[..|ApiBase|] == ApiBase
  {
  }

  /** 404 is success only for DELETE: GET and PUT raise on it. */
  lemma NotFoundIsSuccessOnlyOnDelete(c: Client, o: Oracles, dnsName: string, ipv4: string, resp: Call<Response>)
    requires o.isDomain(dnsName) && o.isIPv4(ipv4) && resp.Answered? && resp.value.status == 404
    ensures c.DeleteDnsARecord(o, dnsName, resp).result.Ok?
    ensures c.GetDnsARecords(o, dnsName, resp).result == Err(RequestFailed(404))
    ensures c.SetDnsARecord(o, dnsName, ipv4, resp).result == Err(RequestFailed(404))
  {
  }

  /** Every request carries the session's Authorization header. */
  lemma RequestsCarryCredentials(c: Client, o: Oracles, dnsName: string, ipv4: string, resp: Call<Response>, apiKey: string, apiSecret: string)
    requires "Authorization" in c.headers && c.headers["Authorization"] == AuthorizationHeader(apiKey, apiSecret)
    ensures forall q ::
      (q in c.GetDnsARecords(o, dnsName, resp).requests + c.SetDnsARecord(o, dnsName, ipv4, resp).requests
        + c.DeleteDnsARecord(o, dnsName, resp).requests)
      ==> q.headers["Authorization"] == AuthorizationHeader(apiKey, apiSecret)
  {
  }
}
