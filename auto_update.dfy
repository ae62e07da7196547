/** auto_update.py: point the GoDaddy A record of host.mydomain.com at this
    host's public IPv4 address (as reported by ipwho.is) when the two differ.
    What the ipwho.is request and the GoDaddy requests did (answered with a
    response, or raised) are inputs. */
module AutoUpdate {
  import opened Common
  import GoDaddy

  const Target: string := "host.mydomain.com"

  /** The ipwho.is response: its status and the 'ip' field of its body. */
  datatype IpWhoReply = IpWhoReply(status: int, ip: string)

  /** `my_current_ipv4`: the reported address, or None where it raises (the
      request failed or the response is not ok). */
  function MyCurrentIpv4(reply: Call<IpWhoReply>): (r: Option<string>)
    ensures r.Some? <==> reply.Answered? && IsOk(reply.value.status)
    ensures r.Some? ==> r.value == reply.value.ip
  {
    match reply
    case Raised => None
    case Answered(resp) => if !IsOk(resp.status) then None else Some(resp.ip)
  }

  /** `godaddy_ip_for`: the data of the first A record GoDaddy holds for the
      hostname, None when it holds none; a failed GET propagates. */
  function GodaddyIpFor(g: GoDaddy.Client, o: GoDaddy.Oracles, hostname: string, resp: Call<GoDaddy.Response>): (out: GoDaddy.Outcome<Option<string>>)
    reads g
    ensures out.requests == g.GetDnsARecords(o, hostname, resp).requests
    ensures out.result.Err? <==> g.GetDnsARecords(o, hostname, resp).result.Err?
    ensures out.result.Err? ==> out.result.error == g.GetDnsARecords(o, hostname, resp).result.error
    ensures out.result.Ok? ==> resp.Answered? && (out.result.value.None? <==> resp.value.records == [])
    ensures out.result.Ok? && out.result.value.Some? ==> out.result.value.value == resp.value.records[0].data
  {
    var got := g.GetDnsARecords(o, hostname, resp);
    match got.result
    case Err(e) => GoDaddy.Outcome(got.requests, Err(e))
    case Ok(r) => GoDaddy.Outcome(got.requests, Ok(if |r.records| > 0 then Some(r.records[0].data) else None))
  }

  /** What the script does, in order. */
  datatype Step = ToGoDaddy(request: GoDaddy.Request) | IpWhoQuery

  datatype MainError =
    | GoDaddyFailed(error: GoDaddy.GoDaddyError)
    | IpWhoFailed
    | NoSuchMethod          // AttributeError: GoDaddy has no `ip_for`

  /** A run of `__main__`: its steps and whether it updated the record. */
  datatype Run = Run(steps: seq<Step>, result: Result<bool, MainError>)

  function GoDaddySteps(requests: seq<GoDaddy.Request>): (r: seq<Step>)
    ensures |r| == |requests|
    ensures forall i :: 0 <= i < |requests| ==> r[i] == ToGoDaddy(requests[i])
  {
    seq(|requests|, i requires 0 <= i < |requests| => ToGoDaddy(requests[i]))
  }

  /** `__main__` as written: `g.ip_for(target)` is an attribute GoDaddy does
      not have, so every run stops there, before any request. */
  function MainAsWritten(g: GoDaddy.Client, o: GoDaddy.Oracles, getResp: Call<GoDaddy.Response>, ipWho: Call<IpWhoReply>, putResp: Call<GoDaddy.Response>): (run: Run)
    reads g
    ensures run.steps == [] && run.result.Err?
  {
    Run([], Err(NoSuchMethod))
  }

  /** `__main__` with the lookup it evidently means, `godaddy_ip_for(target)`:
      the GoDaddy address is read, then the public one, and the record is set
      to the public address exactly when the two differ (a missing record
      never equals an address). A PUT that fails is not caught: the run ends
      in its error. */
  function Main(g: GoDaddy.Client, o: GoDaddy.Oracles, getResp: Call<GoDaddy.Response>, ipWho: Call<IpWhoReply>, putResp: Call<GoDaddy.Response>): (run: Run)
    reads g
    ensures var gd := GodaddyIpFor(g, o, Target, getResp);
      gd.result.Err? ==> run == Run(GoDaddySteps(gd.requests), Err(GoDaddyFailed(gd.result.error)))
    ensures var gd := GodaddyIpFor(g, o, Target, getResp);
      gd.result.Ok? && MyCurrentIpv4(ipWho).None? ==>
      run == Run(GoDaddySteps(gd.requests) + [IpWhoQuery], Err(IpWhoFailed))
    ensures var gd := GodaddyIpFor(g, o, Target, getResp);
      var myIp := MyCurrentIpv4(ipWho);
      gd.result.Ok? && myIp.Some? ==>
      var put := g.SetDnsARecord(o, Target, myIp.value, putResp);
      (gd.result.value == Some(myIp.value) ==> run == Run(GoDaddySteps(gd.requests) + [IpWhoQuery], Ok(false))) &&
      (gd.result.value != Some(myIp.value) ==>
        run.steps == GoDaddySteps(gd.requests) + [IpWhoQuery] + GoDaddySteps(put.requests) &&
        (put.result.Ok? ==> run.result == Ok(true)) &&
        (put.result.Err? ==> run.result == Err(GoDaddyFailed(put.result.error))))
  {
    var gd := GodaddyIpFor(g, o, Target, getResp);
    if gd.result.Err? then Run(GoDaddySteps(gd.requests), Err(GoDaddyFailed(gd.result.error)))
    else
      var myIp := MyCurrentIpv4(ipWho);
      if myIp.None? then Run(GoDaddySteps(gd.requests) + [IpWhoQuery], Err(IpWhoFailed))
      else if gd.result.value == Some(myIp.value) then Run(GoDaddySteps(gd.requests) + [IpWhoQuery], Ok(false))
      else
        var put := g.SetDnsARecord(o, Target, myIp.value, putResp);
        var steps := GoDaddySteps(gd.requests) + [IpWhoQuery] + GoDaddySteps(put.requests);
        match put.result
        case Err(e) => Run(steps, Err(GoDaddyFailed(e)))
        case Ok(_) => Run(steps, Ok(true))
  }

  /** When both lookups succeed, the run sends a PUT exactly when GoDaddy's
      first A record is missing or differs from the public address, and that
      PUT carries the public address as the record for the target. */
  lemma UpdateExactlyOnDrift(g: GoDaddy.Client, o: GoDaddy.Oracles, getResp: Call<GoDaddy.Response>, ipWho: Call<IpWhoReply>, putResp: Call<GoDaddy.Response>)
    requires o.isDomain(Target) && getResp.Answered? && IsOk(getResp.value.status)
    requires ipWho.Answered? && IsOk(ipWho.value.status) && o.isIPv4(ipWho.value.ip)
    ensures var run := Main(g, o, getResp, ipWho, putResp);
      var myIp := ipWho.value.ip;
      var records := getResp.value.records;
      var drift := records == [] || records[0].data != myIp;
      var parts := o.extract(Target);
      (drift <==> |run.steps| == 3) &&
      (drift ==> run.steps[2] == ToGoDaddy(GoDaddy.Request(GoDaddy.Put, GoDaddy.RecordsUrl(parts), g.headers,
                                                            Some(GoDaddy.APayload(parts, myIp))))) &&
      (!drift ==> run.result == Ok(false))
  {
  }

  /** The script as written never reaches GoDaddy, while the intended one
      sets a missing record whenever both services answer. */
  lemma MissingMethodBlocksUpdate(g: GoDaddy.Client, o: GoDaddy.Oracles, getResp: Call<GoDaddy.Response>, ipWho: Call<IpWhoReply>, putResp: Call<GoDaddy.Response>)
    requires o.isDomain(Target) && getResp.Answered? && IsOk(getResp.value.status) && getResp.value.records == []
    requires ipWho.Answered? && IsOk(ipWho.value.status) && o.isIPv4(ipWho.value.ip)
    requires putResp.Answered? && IsOk(putResp.value.status)
    ensures MainAsWritten(g, o, getResp, ipWho, putResp).result == Err(NoSuchMethod)
    ensures Main(g, o, getResp, ipWho, putResp).result == Ok(true)
  {
  }
}
