/** The logic between the boto3 calls of aws.py: SNS topic pagination, the
    EC2 region cache, instance and tag listings, the IAM and CloudWatch Logs
    name filters, the Route53 hosted-zone lookup and the A-record UPSERT
    batch. Every boto3 call is an input: a `Call` that answered or raised,
    or a sequence of them for a paginated listing. */
module Aws {
  import opened Common
  import opened Seqs
  import Text

  // ---------------------------------------------------------------- SNS

  datatype Topic = Topic(topicArn: string)

  /** One `list_topics` response: its 'Topics' and its optional 'NextToken'. */
  datatype TopicsPage = TopicsPage(topics: seq<Topic>, nextToken: Option<string>)

  function Arns(topics: seq<Topic>): (r: seq<string>)
    ensures |r| == |topics|
    ensures forall i :: 0 <= i < |topics| ==> r[i] == topics[i].topicArn
  {
    seq(|topics|, i requires 0 <= i < |topics| => topics[i].topicArn)
  }

  function ArnPages(pages: seq<TopicsPage>): (r: seq<seq<string>>)
    ensures |r| == |pages|
    ensures forall i :: 0 <= i < |pages| ==> r[i] == Arns(pages[i].topics)
  {
    seq(|pages|, i requires 0 <= i < |pages| => Arns(pages[i].topics))
  }

  /** The reply that ends the listing: the first call that raised or the
      first page without a truthy NextToken; |replies| if there is none. */
  function TopicsStop(replies: seq<Call<TopicsPage>>): (k: nat)
    ensures k <= |replies|
    ensures forall j :: 0 <= j < k ==> replies[j].Answered? && Truthy(replies[j].value.nextToken)
    ensures k < |replies| ==> replies[k].Raised? || !Truthy(replies[k].value.nextToken)
  {
    if replies == [] || replies[0].Raised? || !Truthy(replies[0].value.nextToken) then 0
    else 1 + TopicsStop(replies[1..])
  }

  /** `append_topics`: the ARNs of one page added to what was collected. */
  method AppendTopics(result: seq<string>, topics: seq<Topic>) returns (r: seq<string>)
    ensures r == result + Arns(topics)
  {
    r := result;
    for i := 0 to |topics|
      invariant r == result + Arns(topics[..i])
    {
      assert Arns(topics[..i + 1]) == Arns(topics[..i]) + [topics[i].topicArn];
      r := r + [topics[i].topicArn];
    }
    assert topics[..|topics|] == topics;
  }

  /** The tokens of the first `n` `list_topics` calls: none for the first,
      then each the previous reply's NextToken. */
  function Tokens(replies: seq<Call<TopicsPage>>, n: nat): (ts: seq<Option<string>>)
    requires n <= TopicsStop(replies) + 1
    ensures |ts| == n
    ensures n > 0 ==> ts[0] == None
    ensures forall k :: 0 < k < n ==> replies[k - 1].Answered? && ts[k] == replies[k - 1].value.nextToken
  {
    if n == 0 then [] else if n == 1 then [None]
    else Tokens(replies, n - 1) + [replies[n - 2].value.nextToken]
  }

  /** One more page read adds its ARNs to the end of the collected ones. */
  lemma TopicsSnoc(replies: seq<Call<TopicsPage>>, i: nat)
    requires i < |replies|
    requires forall j :: 0 <= j <= i ==> replies[j].Answered?
    ensures Flatten(ArnPages(Values(replies, i + 1))) == Flatten(ArnPages(Values(replies, i))) + Arns(replies[i].value.topics)
  {
    ValuesSnoc(replies, i);
    assert ArnPages(Values(replies, i + 1)) == ArnPages(Values(replies, i)) + [Arns(replies[i].value.topics)];
    FlattenAppend(ArnPages(Values(replies, i)), Arns(replies[i].value.topics));
  }

  /** `SNS.topics`: `replies[i]` is what the i-th `list_topics` call does.
      `sent[i]` is the NextToken passed to call i (none for the first). The
      listing asks for another page exactly while the last page carried a
      truthy NextToken, and returns the ARNs of all pages in page order;
      a call that raises makes the result None. */
  method Topics(replies: seq<Call<TopicsPage>>) returns (r: Option<seq<string>>, sent: seq<Option<string>>)
    requires TopicsStop(replies) < |replies|
    ensures |sent| == TopicsStop(replies) + 1
    ensures sent[0] == None
    ensures forall k :: 0 < k < |sent| ==> replies[k - 1].Answered? && sent[k] == replies[k - 1].value.nextToken
    ensures replies[|sent| - 1].Raised? ==> r == None
    ensures replies[|sent| - 1].Answered? ==> r == Some(Flatten(ArnPages(Values(replies, |sent|))))
  {
    var stop := TopicsStop(replies);
    sent := [None];
    if replies[0].Raised? {
      return None, sent;
    }
    var response := replies[0].value;
    var nextToken := response.nextToken;
    var result := AppendTopics([], response.topics);
    assert ArnPages(Values(replies, 1)) == [Arns(response.topics)];
    var i := 1;
    while Truthy(nextToken)
      invariant 1 <= i <= stop + 1
      invariant sent == Tokens(replies, i)
      invariant replies[i - 1].Answered? && nextToken == replies[i - 1].value.nextToken
      invariant result == Flatten(ArnPages(Values(replies, i)))
      invariant !Truthy(nextToken) ==> i == stop + 1
      decreases stop + 1 - i
    {
      sent := sent + [nextToken];
      if replies[i].Raised? {
        return None, sent;
      }
      response := replies[i].value;
      nextToken := response.nextToken;
      result := AppendTopics(result, response.topics);
      TopicsSnoc(replies, i);
      i := i + 1;
    }
    r := Some(result);
  }

  // ---------------------------------------------------------------- EC2

  /** The EC2 class object; `cachedRegions` is its class attribute `_regions`. */
  class EC2 {
    var cachedRegions: Option<seq<string>>

    constructor ()
      ensures cachedRegions == None
    {
      cachedRegions := None;
    }

    /** `EC2.regions()`: `available` is what building a boto3 session and
        calling `get_available_regions('ec2')` did. It is asked for only while
        nothing is cached. Nothing catches a raise there: the call raises
        (None) and the cache stays empty. Once a list is cached it is returned
        unchanged. */
    method Regions(available: Call<seq<string>>) returns (r: Option<seq<string>>, fetched: bool)
      modifies this
      ensures fetched <==> old(cachedRegions).None?
      ensures old(cachedRegions).None? && available.Answered? ==>
        r == Some(available.value) && cachedRegions == Some(available.value)
      ensures old(cachedRegions).None? && available.Raised? ==> r == None && cachedRegions == None
      ensures old(cachedRegions).Some? ==> r == old(cachedRegions) && cachedRegions == old(cachedRegions)
    {
      fetched := cachedRegions.None?;
      if fetched {
        match available
        case Raised =>
          return None, fetched;
        case Answered(regions) =>
          cachedRegions := Some(regions);
      }
      r := cachedRegions;
    }
  }

  /** Two calls in a row: once the first returned a list, the second fetches
      nothing and returns the same list; a first call that raised leaves the
      second to fetch again. */
  method RegionsTwice(ec2: EC2, first: Call<seq<string>>, second: Call<seq<string>>) returns (a: Option<seq<string>>, b: Option<seq<string>>, fetchedAgain: bool)
    modifies ec2
    ensures a.Some? ==> !fetchedAgain && b == a
    ensures a.None? ==> fetchedAgain && (b.Some? <==> second.Answered?) && (b.Some? ==> b.value == second.value)
    ensures old(ec2.cachedRegions).None? ==> (a.Some? <==> first.Answered?) && (a.Some? ==> a.value == first.value)
    ensures old(ec2.cachedRegions).Some? ==> a == old(ec2.cachedRegions)
  {
    var f;
    a, f := ec2.Regions(first);
    b, fetchedAgain := ec2.Regions(second);
  }

  datatype Instance = Instance(instanceId: string, instanceType: string)
  datatype Reservation = Reservation(instances: seq<Instance>)

  /** A `describe_instances` response; 'Reservations' may be absent. */
  datatype InstancesResponse = InstancesResponse(reservations: Option<seq<Reservation>>)

  function Pairs(instances: seq<Instance>): (r: seq<(string, string)>)
    ensures |r| == |instances|
    ensures forall i :: 0 <= i < |instances| ==> r[i] == (instances[i].instanceId, instances[i].instanceType)
  {
    seq(|instances|, i requires 0 <= i < |instances| => (instances[i].instanceId, instances[i].instanceType))
  }

  function PairPages(reservations: seq<Reservation>): (r: seq<seq<(string, string)>>)
    ensures |r| == |reservations|
    ensures forall i :: 0 <= i < |reservations| ==> r[i] == Pairs(reservations[i].instances)
  {
    seq(|reservations|, i requires 0 <= i < |reservations| => Pairs(reservations[i].instances))
  }

  /** One more instance adds its pair at the end. */
  lemma PairsSnoc(instances: seq<Instance>, j: nat)
    requires j < |instances|
    ensures Pairs(instances[..j + 1]) == Pairs(instances[..j]) + [(instances[j].instanceId, instances[j].instanceType)]
  {
  }

  /** One more reservation adds all its pairs at the end. */
  lemma PairPagesSnoc(reservations: seq<Reservation>, i: nat)
    requires i < |reservations|
    ensures Flatten(PairPages(reservations[..i + 1])) ==
      Flatten(PairPages(reservations[..i])) + Pairs(reservations[i].instances[..|reservations[i].instances|])
  {
    var instances := reservations[i].instances;
    assert instances[..|instances|] == instances;
    assert PairPages(reservations[..i + 1]) == PairPages(reservations[..i]) + [Pairs(instances)];
    FlattenAppend(PairPages(reservations[..i]), Pairs(instances));
  }

  /** `EC2.instances`: the (InstanceId, InstanceType) pairs of every
      reservation, reservation by reservation and in order within each; an
      absent 'Reservations' gives the empty list, a raising call None. */
  method Instances(reply: Call<InstancesResponse>) returns (r: Option<seq<(string, string)>>)
    ensures reply.Raised? ==> r == None
    ensures reply.Answered? ==> r == Some(Flatten(PairPages(GetOr(reply.value.reservations, []))))
  {
    if reply.Raised? {
      return None;
    }
    var reservations := GetOr(reply.value.reservations, []);
    var result := [];
    for i := 0 to |reservations|
      invariant result == Flatten(PairPages(reservations[..i]))
    {
      var instances := reservations[i].instances;
      ghost var before := result;
      for j := 0 to |instances|
        invariant result == before + Pairs(instances[..j])
      {
        PairsSnoc(instances, j);
        result := result + [(instances[j].instanceId, instances[j].instanceType)];
      }
      PairPagesSnoc(reservations, i);
    }
    assert reservations[..|reservations|] == reservations;
    r := Some(result);
  }

  /** One entry of 'Tags'; 'Key' and 'Value' may each be absent. */
  datatype Tag = Tag(key: Option<string>, value: Option<string>)
  datatype TagsResponse = TagsResponse(tags: Option<seq<Tag>>)

  /** `EC2.get_instance_tags`: one (Key, Value) pair per tag, in order, with
      '' for a missing field; an absent 'Tags' gives the empty list. */
  method GetInstanceTags(reply: Call<TagsResponse>) returns (r: Option<seq<(string, string)>>)
    ensures reply.Raised? ==> r == None
    ensures reply.Answered? ==> r.Some? && |r.value| == |GetOr(reply.value.tags, [])|
    ensures reply.Answered? ==> forall i :: 0 <= i < |r.value| ==>
      var t := GetOr(reply.value.tags, [])[i];
      r.value[i] == (GetOr(t.key, ""), GetOr(t.value, ""))
  {
    if reply.Raised? {
      return None;
    }
    var tags := GetOr(reply.value.tags, []);
    var result := [];
    for i := 0 to |tags|
      invariant |result| == i
      invariant forall k :: 0 <= k < i ==> result[k] == (GetOr(tags[k].key, ""), GetOr(tags[k].value, ""))
    {
      result := result + [(GetOr(tags[i].key, ""), GetOr(tags[i].value, ""))];
    }
    r := Some(result);
  }

  // ------------------------------------------------- name filters (IAM, Logs)

  /** `prefix is None or prefix.lower() in name.lower()`. */
  predicate NameMatches(prefix: Option<string>, name: string)
    ensures prefix.None? ==> NameMatches(prefix, name)
    ensures prefix.Some? && NameMatches(prefix, name) ==> |prefix.value| <= |name|
  {
    prefix.None? || Text.Contains(Text.Lower(name), Text.Lower(prefix.value))
  }

  /** The name test is a case-insensitive substring test at any position. */
  lemma NameMatchesAnywhere(prefix: string, name: string)
    ensures NameMatches(Some(prefix), name) <==>
      exists i :: Text.OccursAt(Text.Lower(name), Text.Lower(prefix), i)
  {
    Text.ContainsIff(Text.Lower(name), Text.Lower(prefix));
  }

  /** An empty prefix keeps every name, as no prefix does. */
  lemma EmptyPrefixMatchesAll(name: string)
    ensures NameMatches(Some(""), name)
  {
    assert Text.OccursAt(Text.Lower(name), Text.Lower(""), 0);
    NameMatchesAnywhere("", name);
  }

  /** `policies.extend(page[...])` for every page, in page order. */
  method CollectPages<T>(pages: seq<seq<T>>) returns (all: seq<T>)
    ensures all == Flatten(pages)
  {
    all := [];
    for i := 0 to |pages|
      invariant all == Flatten(pages[..i])
    {
      FlattenSnoc(pages, i);
      all := all + pages[i];
    }
    assert pages[..|pages|] == pages;
  }

  /** `for x in items: if test(x): result.append(x)`. */
  method KeepMatching<T>(items: seq<T>, test: T -> bool) returns (result: seq<T>)
    ensures result == Filter(items, test)
  {
    result := [];
    for i := 0 to |items|
      invariant result == Filter(items[..i], test)
    {
      FilterSnoc(items, i, test);
      if test(items[i]) {
        result := result + [items[i]];
      }
    }
    assert items[..|items|] == items;
  }

  datatype Policy = Policy(policyName: string, arn: string)
  datatype Role = Role(roleName: string, arn: string)

  function PolicyTest(prefix: Option<string>): Policy -> bool {
    (p: Policy) => NameMatches(prefix, p.policyName)
  }

  function RoleTest(prefix: Option<string>): Role -> bool {
    (r: Role) => NameMatches(prefix, r.roleName)
  }

  /** With no prefix the name test passes everything, so filtering is the identity. */
  lemma NoPrefixKeepsAll<T>(items: seq<T>, name: T -> string)
    ensures Filter(items, (x: T) => NameMatches(None, name(x))) == items
  {
    FilterKeepsAll(items, (x: T) => NameMatches(None, name(x)));
  }

  /** `IAM.list_policies`: `pages[i]` is the i-th page of the paginator. All
      pages are collected in order; with no prefix everything is returned,
      otherwise exactly the policies whose name contains the prefix, ignoring
      case, in their original order. A page that raises makes the result None. */
  method ListPolicies(pages: seq<Call<seq<Policy>>>, prefix: Option<string>) returns (r: Option<seq<Policy>>)
    ensures FirstRaised(pages) < |pages| ==> r == None
    ensures FirstRaised(pages) == |pages| ==> r == Some(Filter(Flatten(Values(pages, |pages|)), PolicyTest(prefix)))
  {
    if FirstRaised(pages) < |pages| {
      return None;
    }
    var policies := CollectPages(Values(pages, |pages|));
    if prefix.None? {
      FilterKeepsAll(policies, PolicyTest(prefix));
      return Some(policies);
    }
    var result := KeepMatching(policies, PolicyTest(prefix));
    r := Some(result);
  }

  /** `IAM.list_roles`: as `ListPolicies`, on role names. */
  method ListRoles(pages: seq<Call<seq<Role>>>, prefix: Option<string>) returns (r: Option<seq<Role>>)
    ensures FirstRaised(pages) < |pages| ==> r == None
    ensures FirstRaised(pages) == |pages| ==> r == Some(Filter(Flatten(Values(pages, |pages|)), RoleTest(prefix)))
  {
    if FirstRaised(pages) < |pages| {
      return None;
    }
    var roles := CollectPages(Values(pages, |pages|));
    if prefix.None? {
      FilterKeepsAll(roles, RoleTest(prefix));
      return Some(roles);
    }
    var result := KeepMatching(roles, RoleTest(prefix));
    r := Some(result);
  }

  /** A filtered listing holds exactly the collected entries that pass the
      name test, in their original relative order. */
  lemma ListedPoliciesAreMatches(all: seq<Policy>, prefix: Option<string>, p: Policy)
    ensures p in Filter(all, PolicyTest(prefix)) <==> p in all && NameMatches(prefix, p.policyName)
    ensures SubSeq(Filter(all, PolicyTest(prefix)), all)
  {
    FilterMembership(all, PolicyTest(prefix), p);
    FilterIsSubSeq(all, PolicyTest(prefix));
  }

  lemma ListedRolesAreMatches(all: seq<Role>, prefix: Option<string>, x: Role)
    ensures x in Filter(all, RoleTest(prefix)) <==> x in all && NameMatches(prefix, x.roleName)
    ensures SubSeq(Filter(all, RoleTest(prefix)), all)
  {
    FilterMembership(all, RoleTest(prefix), x);
    FilterIsSubSeq(all, RoleTest(prefix));
  }

  /** One entry of 'logGroups' and the dictionary `list_log_groups` builds from it. */
  datatype LogGroup = LogGroup(logGroupName: string, arn: string, creationTime: int)
  datatype LogGroupSummary = LogGroupSummary(name: string, arn: string, creation: int)

  function Summary(g: LogGroup): LogGroupSummary {
    LogGroupSummary(g.logGroupName, g.arn, g.creationTime)
  }

  function Summaries(groups: seq<LogGroup>): (r: seq<LogGroupSummary>)
    ensures |r| == |groups|
    ensures forall i :: 0 <= i < |groups| ==> r[i] == Summary(groups[i])
  {
    seq(|groups|, i requires 0 <= i < |groups| => Summary(groups[i]))
  }

  function LogGroupTest(prefix: Option<string>): LogGroup -> bool {
    (g: LogGroup) => NameMatches(prefix, g.logGroupName)
  }

  /** One more group adds its summary at the end exactly when it passes the name test. */
  lemma SummariesSnoc(groups: seq<LogGroup>, i: nat, prefix: Option<string>)
    requires i < |groups|
    ensures Summaries(Filter(groups[..i + 1], LogGroupTest(prefix))) ==
      Summaries(Filter(groups[..i], LogGroupTest(prefix)))
        + (if NameMatches(prefix, groups[i].logGroupName) then [Summary(groups[i])] else [])
  {
    FilterSnoc(groups, i, LogGroupTest(prefix));
    var kept := Filter(groups[..i], LogGroupTest(prefix));
    if NameMatches(prefix, groups[i].logGroupName) {
      assert Summaries(kept + [groups[i]]) == Summaries(kept) + [Summary(groups[i])];
    }
  }

  /** `Logs.list_log_groups`: one `describe_log_groups` response, no further
      pages. The summaries of exactly the groups whose name passes the name
      test, in order; a raising call gives None. */
  method ListLogGroups(reply: Call<seq<LogGroup>>, prefix: Option<string>) returns (r: Option<seq<LogGroupSummary>>)
    ensures reply.Raised? ==> r == None
    ensures reply.Answered? ==> r == Some(Summaries(Filter(reply.value, LogGroupTest(prefix))))
  {
    if reply.Raised? {
      return None;
    }
    var groups := reply.value;
    var result := [];
    for i := 0 to |groups|
      invariant result == Summaries(Filter(groups[..i], LogGroupTest(prefix)))
    {
      SummariesSnoc(groups, i, prefix);
      if prefix.None? || Text.Contains(Text.Lower(groups[i].logGroupName), Text.Lower(prefix.value)) {
        result := result + [LogGroupSummary(groups[i].logGroupName, groups[i].arn, groups[i].creationTime)];
      }
    }
    assert groups[..|groups|] == groups;
    r := Some(result);
  }

  // ------------------------------------------------------------ Route53

  datatype HostedZone = HostedZone(id: string, name: string)

  /** The absolute form of a zone name: a '.' is appended unless the name
      already ends in one. */
  function NormalizeZoneName(name: string): (r: string)
    requires name != []
    ensures r == name || r == name + "."
    ensures r == name <==> name[|name| - 1] == '.'
    ensures r[|r| - 1] == '.'
  {
    if name[|name| - 1] != '.' then name + "." else name
  }

  /** Normalising an already normal name changes nothing. */
  lemma NormalizeZoneNameIdempotent(name: string)
    requires name != []
    ensures NormalizeZoneName(NormalizeZoneName(name)) == NormalizeZoneName(name)
  {
  }

  /** Position of the first zone whose Name is `name`, if any. */
  function FirstZoneMatch(zones: seq<HostedZone>, name: string): (r: Option<nat>)
    ensures r.None? <==> forall k :: 0 <= k < |zones| ==> zones[k].name != name
    ensures r.Some? ==> r.value < |zones| && zones[r.value].name == name
    ensures r.Some? ==> forall k :: 0 <= k < r.value ==> zones[k].name != name
  {
    if zones == [] then None
    else if zones[0].name == name then Some(0)
    else match FirstZoneMatch(zones[1..], name)
      case None => None
      case Some(k) => Some(k + 1)
  }

  /** The id the lookup returns for `name` among `zones`: the text after the
      last '/' of the first matching zone's Id. */
  function ZoneIdIn(zones: seq<HostedZone>, name: string): Option<string> {
    match FirstZoneMatch(zones, name)
    case None => None
    case Some(k) => Some(Text.LastSegment(zones[k].id))
  }

  /** The zone id `get_zone_id_by_name` finds for a non-empty `zoneName`
      among the zones of the pages read before the first one that raised. */
  function ZoneIdForName(pages: seq<Call<seq<HostedZone>>>, zoneName: string): Option<string>
    requires zoneName != []
  {
    ZoneIdIn(Flatten(Values(pages, FirstRaised(pages))), NormalizeZoneName(zoneName))
  }

  /** `zone_name[-1]` on an empty name raises before the try block. */
  datatype ZoneError = EmptyZoneName

  /** `Route53.get_zone_id_by_name`: `pages` are the paginator's pages. The
      zones of the pages read before the first one that raised are searched
      page by page, in page order; a raising page ends the search with None. */
  method GetZoneIdByName(zoneName: string, pages: seq<Call<seq<HostedZone>>>) returns (r: Result<Option<string>, ZoneError>)
    ensures zoneName == [] ==> r == Err(EmptyZoneName)
    ensures zoneName != [] ==> r == Ok(ZoneIdForName(pages, zoneName))
  {
    if zoneName == [] {
      return Err(EmptyZoneName);
    }
    var name := zoneName;
    if name[|name| - 1] != '.' {
      name := name + ".";
    }
    var stop := FirstRaised(pages);
    ghost var all := Flatten(Values(pages, stop));
    var i := 0;
    while i < |pages|
      invariant i <= stop
      invariant FirstZoneMatch(Flatten(Values(pages, i)), name).None?
    {
      if pages[i].Raised? {
        break;
      }
      var page := pages[i].value;
      ghost var seen := Flatten(Values(pages, i));
      for j := 0 to |page|
        invariant FirstZoneMatch(seen + page[..j], name).None?
      {
        if page[j].name == name {
          FoundZone(pages, stop, i, j, name);
          return Ok(Some(Text.LastSegment(page[j].id)));
        }
        NoMatchInPage(seen, page, j, name);
      }
      NoMatchAfterPage(pages, i, name);
      i := i + 1;
    }
    NoneFound(pages, stop, i, name);
    r := Ok(None);
  }

  /** The first matching zone met by the nested loops is the first match of
      the whole concatenation. */
  lemma FoundZone(pages: seq<Call<seq<HostedZone>>>, stop: nat, i: nat, j: nat, name: string)
    requires stop == FirstRaised(pages) && i < stop
    requires j < |pages[i].value| && pages[i].value[j].name == name
    requires FirstZoneMatch(Flatten(Values(pages, i)) + pages[i].value[..j], name).None?
    ensures ZoneIdIn(Flatten(Values(pages, stop)), name) == Some(Text.LastSegment(pages[i].value[j].id))
  {
    var vs := Values(pages, stop);
    assert vs == Values(pages, i) + [pages[i].value] + vs[i + 1..];
    FlattenConcat(Values(pages, i) + [pages[i].value], vs[i + 1..]);
    FlattenAppend(Values(pages, i), pages[i].value);
    var seen := Flatten(Values(pages, i));
    var all := Flatten(vs);
    assert all == seen + pages[i].value + Flatten(vs[i + 1..]);
    var n := |seen| + j;
    assert all[n] == pages[i].value[j];
    assert forall k :: 0 <= k < n ==> all[k] == (seen + pages[i].value[..j])[k];
    FirstZoneMatchAt(all, name, n);
  }

  /** A zone that matches and is preceded by no match is the first match. */
  lemma {:induction false} FirstZoneMatchAt(zones: seq<HostedZone>, name: string, n: nat)
    requires n < |zones| && zones[n].name == name
    requires forall k :: 0 <= k < n ==> zones[k].name != name
    ensures FirstZoneMatch(zones, name) == Some(n)
  {
    if n > 0 {
      FirstZoneMatchAt(zones[1..], name, n - 1);
    }
  }

  /** A zone list with no match stays without one when a non-matching zone is appended. */
  lemma NoMatchSnoc(zones: seq<HostedZone>, z: HostedZone, name: string)
    requires FirstZoneMatch(zones, name).None? && z.name != name
    ensures FirstZoneMatch(zones + [z], name).None?
  {
    var all := zones + [z];
    forall k | 0 <= k < |all|
      ensures all[k].name != name
    {
      if k < |zones| {
        assert all[k] == zones[k];
      }
    }
  }

  /** The inner loop's step: a non-matching zone of the page keeps the zones seen free of a match. */
  lemma NoMatchInPage(seen: seq<HostedZone>, page: seq<HostedZone>, j: nat, name: string)
    requires j < |page| && page[j].name != name
    requires FirstZoneMatch(seen + page[..j], name).None?
    ensures FirstZoneMatch(seen + page[..j + 1], name).None?
  {
    assert seen + page[..j + 1] == (seen + page[..j]) + [page[j]];
    NoMatchSnoc(seen + page[..j], page[j], name);
  }

  /** The outer loop's step: a page read through without a match adds none. */
  lemma NoMatchAfterPage(pages: seq<Call<seq<HostedZone>>>, i: nat, name: string)
    requires i < FirstRaised(pages)
    requires FirstZoneMatch(Flatten(Values(pages, i)) + pages[i].value[..|pages[i].value|], name).None?
    ensures FirstZoneMatch(Flatten(Values(pages, i + 1)), name).None?
  {
    assert pages[i].value[..|pages[i].value|] == pages[i].value;
    ValuesSnoc(pages, i);
    FlattenAppend(Values(pages, i), pages[i].value);
  }

  lemma NoneFound(pages: seq<Call<seq<HostedZone>>>, stop: nat, i: nat, name: string)
    requires stop == FirstRaised(pages) && i <= stop
    requires i == |pages| || pages[i].Raised?
    requires FirstZoneMatch(Flatten(Values(pages, i)), name).None?
    ensures ZoneIdIn(Flatten(Values(pages, stop)), name) == None
  {
    assert i == stop;
  }

  // -------------------------------------------------- Route53 A-record UPSERT

  datatype ResourceRecord = ResourceRecord(value: string)
  datatype ResourceRecordSet = ResourceRecordSet(name: string, rtype: string, ttl: int, records: seq<ResourceRecord>)
  datatype Change = Change(action: string, recordSet: ResourceRecordSet)
  datatype ChangeBatch = ChangeBatch(changes: seq<Change>, comment: string)

  /** The change batch `set_a_record` sends. */
  function UpsertBatch(recordName: string, newValue: string, comment: string): (b: ChangeBatch)
    ensures |b.changes| == 1 && b.comment == comment
    ensures b.changes[0].action == "UPSERT"
    ensures b.changes[0].recordSet == ResourceRecordSet(recordName, "A", 300, [ResourceRecord(newValue)])
  {
    ChangeBatch([Change("UPSERT", ResourceRecordSet(recordName, "A", 300, [ResourceRecord(newValue)]))], comment)
  }

  /** The `change_resource_record_sets` request: a zone id and a batch. */
  datatype ChangeRequest = ChangeRequest(hostedZoneId: string, batch: ChangeBatch)

  /** What `set_a_record` did: the request it sent, if any, and the
      service's response, or None where the method caught an exception. */
  datatype SetARecordOutcome<R> = SetARecordOutcome(sent: Option<ChangeRequest>, response: Option<R>)

  /** `Route53.set_a_record`: `reply` is what `change_resource_record_sets`
      does. A missing zone id fails boto3's parameter validation, so nothing
      is sent and the method returns None; otherwise the UPSERT batch of
      `recordName` to `newValue` is sent for that zone, and the response is
      returned unless the call raised. */
  function SetARecord<R>(hostedZoneId: Option<string>, recordName: string, newValue: string, comment: string, reply: Call<R>): (out: SetARecordOutcome<R>)
    ensures out.sent.Some? <==> hostedZoneId.Some?
    ensures out.sent.Some? ==> out.sent.value.hostedZoneId == hostedZoneId.value
    ensures out.sent.Some? ==> out.sent.value.batch == UpsertBatch(recordName, newValue, comment)
    ensures out.response.Some? <==> hostedZoneId.Some? && reply.Answered?
    ensures out.response.Some? ==> out.response.value == reply.value
  {
    match hostedZoneId
    case None => SetARecordOutcome(None, None)
    case Some(id) =>
      var request := ChangeRequest(id, UpsertBatch(recordName, newValue, comment));
      SetARecordOutcome(Some(request), if reply.Answered? then Some(reply.value) else None)
  }

  /** What Route53 holds for one zone: record sets by (name, type). */
  datatype RecordKey = RecordKey(name: string, rtype: string)
  type ZoneRecords = map<RecordKey, ResourceRecordSet>

  predicate AllUpserts(changes: seq<Change>) {
    forall i :: 0 <= i < |changes| ==> changes[i].action == "UPSERT"
  }

  /** UPSERT semantics: each change creates or replaces the record set of its (name, type). */
  function ApplyUpserts(zone: ZoneRecords, changes: seq<Change>): ZoneRecords
    requires AllUpserts(changes)
    decreases |changes|
  {
    if changes == [] then zone
    else
      var rs := changes[0].recordSet;
      ApplyUpserts(zone[RecordKey(rs.name, rs.rtype) := rs], changes[1..])
  }

  /** After the batch the A record of the name holds exactly the new value,
      with TTL 300, whether or not it existed before; nothing else changes. */
  lemma UpsertReadBack(zone: ZoneRecords, recordName: string, newValue: string, comment: string)
    ensures var z := ApplyUpserts(zone, UpsertBatch(recordName, newValue, comment).changes);
      && RecordKey(recordName, "A") in z
      && z[RecordKey(recordName, "A")].records == [ResourceRecord(newValue)]
      && z[RecordKey(recordName, "A")].ttl == 300
      && (forall k :: k != RecordKey(recordName, "A") ==> (k in z <==> k in zone))
      && (forall k :: k != RecordKey(recordName, "A") && k in zone ==> z[k] == zone[k])
  {
    var b := UpsertBatch(recordName, newValue, comment);
    assert b.changes[1..] == [];
  }

  /** Whenever `set_a_record` sends a request, the batch it sends leaves the
      zone's A record for the name holding exactly the new value. */
  lemma SetARecordTakesEffect<R>(zone: ZoneRecords, hostedZoneId: string, recordName: string, newValue: string, comment: string, reply: Call<R>)
    ensures var out := SetARecord(Some(hostedZoneId), recordName, newValue, comment, reply);
      && out.sent == Some(ChangeRequest(hostedZoneId, UpsertBatch(recordName, newValue, comment)))
      && AllUpserts(out.sent.value.batch.changes)
      && var z := ApplyUpserts(zone, out.sent.value.batch.changes);
         RecordKey(recordName, "A") in z && z[RecordKey(recordName, "A")].records == [ResourceRecord(newValue)]
  {
    UpsertReadBack(zone, recordName, newValue, comment);
  }

  /** Sending the same batch twice leaves the zone as sending it once. */
  lemma UpsertIdempotent(zone: ZoneRecords, recordName: string, newValue: string, comment: string)
    ensures var cs := UpsertBatch(recordName, newValue, comment).changes;
      ApplyUpserts(ApplyUpserts(zone, cs), cs) == ApplyUpserts(zone, cs)
  {
    var cs := UpsertBatch(recordName, newValue, comment).changes;
    assert cs[1..] == [];
  }
}
