/** oakridge_4runner.py: keep the A record of 4runner.oakridge.io (a
    Route53 zone) equal to this host's public IPv4 address. The published
    address comes from a DNS lookup, the public one from an echo service;
    both are inputs, as are whether the Route53 client could be built, the
    hosted-zone pages and the Route53 reply. */
module Oakridge {
  import opened Common
  import Text
  import Aws

  const Hostname: string := "4runner.oakridge.io"
  const ZoneName: string := "oakridge.io"

  /** The echo service's response: status code and body text. */
  datatype EchoReply = EchoReply(status: int, text: string)

  /** `my_public_ip`: the body with surrounding whitespace stripped, or None
      when the request raised or `raise_for_status` did (a 4xx or 5xx status). */
  function MyPublicIp(reply: Call<EchoReply>): (r: Option<string>)
    ensures r.Some? <==> reply.Answered? && IsOk(reply.value.status)
    ensures r.Some? ==> r.value == [] || (!Text.IsSpace(r.value[0]) && !Text.IsSpace(r.value[|r.value| - 1]))
    ensures r.Some? ==> Text.LeadingSpace(reply.value.text) + |r.value| <= |reply.value.text|
    ensures r.Some? ==>
      r.value == reply.value.text[Text.LeadingSpace(reply.value.text)..Text.LeadingSpace(reply.value.text) + |r.value|]
    ensures r.Some? ==> forall k :: Text.LeadingSpace(reply.value.text) + |r.value| <= k < |reply.value.text| ==> Text.IsSpace(reply.value.text[k])
    ensures r.Some? && r.value == [] ==> forall k :: 0 <= k < |reply.value.text| ==> Text.IsSpace(reply.value.text[k])
  {
    match reply
    case Raised => None
    case Answered(resp) => if !IsOk(resp.status) then None else Some(Text.Strip(resp.text))
  }

  /** What the script does, in order. */
  datatype Step =
    | DnsLookup(hostname: string)
    | PublicIpQuery
    | ZoneLookup(zoneName: string)
    | SetARecord(hostedZoneId: Option<string>, sent: Option<Aws.ChangeRequest>)

  datatype Run = Run(steps: seq<Step>, exitCode: int)

  predicate IsRoute53Step(s: Step) {
    s.ZoneLookup? || s.SetARecord?
  }

  /** The address found in DNS and the public one both exist and differ. */
  predicate Drift(dnsIp: Option<string>, echo: Call<EchoReply>) {
    dnsIp.Some? && MyPublicIp(echo).Some? && MyPublicIp(echo).value != dnsIp.value
  }

  /** The script's `__main__`: `dnsIp` is what the lookup of the hostname
      gave, `echo` what the echo service did, `client` whether building the
      Route53 client (its boto3 session and profile) succeeded, `zonePages`
      the hosted-zone pages, `route53` what `change_resource_record_sets` did
      and `comment` the change comment.
      It exits 1 when either address is missing, exits 0 without touching
      Route53 when they agree, exits 1 (the uncaught exception) when the
      client cannot be built, and otherwise sends exactly one UPSERT of the
      hostname to the public address. */
  function Reconcile<R>(dnsIp: Option<string>, echo: Call<EchoReply>, client: Call<()>,
                        zonePages: seq<Call<seq<Aws.HostedZone>>>, route53: Call<R>, comment: string): (run: Run)
    ensures |run.steps| >= 1 && run.steps[0] == DnsLookup(Hostname)
    ensures run.exitCode == 1 <==> dnsIp.None? || MyPublicIp(echo).None? || (Drift(dnsIp, echo) && client.Raised?)
    ensures run.exitCode == 0 || run.exitCode == 1
    ensures dnsIp.None? ==> run.steps == [DnsLookup(Hostname)]
    ensures (exists i :: 0 <= i < |run.steps| && IsRoute53Step(run.steps[i])) <==> Drift(dnsIp, echo) && client.Answered?
  {
    if dnsIp.None? then Run([DnsLookup(Hostname)], 1)
    else
      var publicIp := MyPublicIp(echo);
      if publicIp.None? then Run([DnsLookup(Hostname), PublicIpQuery], 1)
      else if publicIp.value == dnsIp.value then Run([DnsLookup(Hostname), PublicIpQuery], 0)
      else if client.Raised? then Run([DnsLookup(Hostname), PublicIpQuery], 1)
      else
        var zoneId := Aws.ZoneIdForName(zonePages, ZoneName);
        var steps := [DnsLookup(Hostname), PublicIpQuery, ZoneLookup(ZoneName),
                      SetARecord(zoneId, Aws.SetARecord(zoneId, Hostname, publicIp.value, comment, route53).sent)];
        assert IsRoute53Step(steps[2]);
        Run(steps, 0)
  }

  /** On drift, once the Route53 client is built, the script makes exactly
      one `set_a_record` call: for the zone id of 'oakridge.io', the hostname
      and the public address. */
  lemma DriftMakesOneUpsert<R>(dnsIp: string, echo: Call<EchoReply>, zonePages: seq<Call<seq<Aws.HostedZone>>>, route53: Call<R>, comment: string)
    requires MyPublicIp(echo).Some? && MyPublicIp(echo).value != dnsIp
    ensures var run := Reconcile(Some(dnsIp), echo, Answered(()), zonePages, route53, comment);
      var publicIp := MyPublicIp(echo).value;
      var zoneId := Aws.ZoneIdForName(zonePages, ZoneName);
      && run.exitCode == 0
      && |run.steps| == 4
      && run.steps[2] == ZoneLookup(ZoneName)
      && run.steps[3] == SetARecord(zoneId, Aws.SetARecord(zoneId, Hostname, publicIp, comment, route53).sent)
      && (zoneId.Some? ==> run.steps[3].sent == Some(Aws.ChangeRequest(zoneId.value, Aws.UpsertBatch(Hostname, publicIp, comment))))
      && (zoneId.None? ==> run.steps[3].sent == None)
      && (forall i :: 0 <= i < 3 ==> !run.steps[i].SetARecord?)
  {
  }

  /** A failed DNS lookup ends the run before the public address is asked for. */
  lemma LookupFailureStopsFirst<R>(echo: Call<EchoReply>, client: Call<()>, zonePages: seq<Call<seq<Aws.HostedZone>>>, route53: Call<R>, comment: string)
    ensures Reconcile(None, echo, client, zonePages, route53, comment) == Run([DnsLookup(Hostname)], 1)
  {
  }

  /** On drift, a Route53 client that cannot be built ends the run with exit
      1 before any zone lookup or record change. */
  lemma ClientFailureStopsBeforeRoute53<R>(dnsIp: string, echo: Call<EchoReply>, zonePages: seq<Call<seq<Aws.HostedZone>>>, route53: Call<R>, comment: string)
    requires MyPublicIp(echo).Some? && MyPublicIp(echo).value != dnsIp
    ensures Reconcile(Some(dnsIp), echo, Raised, zonePages, route53, comment) == Run([DnsLookup(Hostname), PublicIpQuery], 1)
  {
  }

  /** The stripped address is stripped: a second strip changes nothing. */
  lemma PublicIpIsStripped(reply: Call<EchoReply>)
    requires MyPublicIp(reply).Some?
    ensures Text.Strip(MyPublicIp(reply).value) == MyPublicIp(reply).value
  {
    Text.StripIdempotent(reply.value.text);
  }
}
