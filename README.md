# goDaddy_API logic layer in Dafny

goDaddy_API is a set of Python scripts around boto3, requests and slack_sdk. They do three jobs:
- keep DNS A records in line with a host's public IPv4 address, on Route53 (`oakridge_4runner.py`) and on GoDaddy (`auto_update.py`);
- scan the two-letter `.ai` names for availability (`is_domain_available.py`);
- wrap a few AWS and Slack listings (`aws.py`, `slack.py`), with the GoDaddy record calls in `godaddy.py`.

This project models the logic that sits between those foreign calls. The foreign calls themselves are inputs. A call that can fail is a `Call<T>`: either `Answered(value)` or `Raised`. A paginated call, and the polling of the availability endpoint, is a sequence of such replies, where the i-th reply is what the i-th request gets. An HTTP response is its status code plus the parsed body; a body that does not parse, or lacks a key the code indexes, counts as `Raised`. Every GoDaddy request and every availability request is such a `Call`, so a raise ends the operation or the scan as it does in the scripts. `validators.domain`, `validators.ipv4` and `tldextract.extract` are total functions passed in as `GoDaddy.Oracles`.

Modules, one per script plus three shared ones:

- `Common` (common.dfy): `Option`, `Call` and `Result`. It also holds Python truthiness of an optional string, and `IsOk`, which is requests' `Response.ok`: false exactly for a 4xx or 5xx status.
- `Seqs` (seqs.dfy): list comprehension as `Filter` and page concatenation as `Flatten`, with their lemmas. Filters are shown to keep order (`SubSeq`) and keep exactly the matching elements.
- `Text` (text.dfy): Python's `str.lower` (ASCII letters only), the `in` substring test, `str.strip` over Python's whitespace code points, and `split('/')[-1]`.
- `Aws` (aws.py):
  - SNS topics pagination;
  - the class-level EC2 region cache, as a class with a field;
  - instance and tag listings;
  - IAM policy and role listings and log groups, with the case-insensitive name filter;
  - the Route53 zone lookup and the UPSERT change batch, with a map model of what UPSERT does to a zone.
- `Slack` (slack.py): the `Bot` class, including its token check, the cursor-paged user listing with deleted and bot filters, the username lookup, and the guard before a direct message.
- `GoDaddy` (godaddy.py): the `Client` class's header set-up, and the three record operations as functions. Each function returns the requests it would send and its result.
- `DomainAvailability` (is_domain_available.py): the availability check with its tick-counting back-off, and the 676-name scan.
- `Oakridge` (oakridge_4runner.py): `my_public_ip` and the script's reconcile decision.
- `AutoUpdate` (auto_update.py): `my_current_ipv4`, `godaddy_ip_for` and the script's update decision.

Where a script loops or updates state, the model is a `method` with loop invariants or a `class`. Each such method is proved against a specification function (`Flatten`, `Filter`, `FirstZoneMatch`, `StopAt` and so on), and properties of that function are proved as lemmas. Straight-line scripts are functions.

`my_public_ip` returns None when `raise_for_status` raises. That happens only for 4xx and 5xx statuses, not for every non-2xx status, and the model follows the code.

## Model

| member | source | states |
|---|---|---|
| Text.Lower | aws.py:335 | lower-casing keeps the length, maps each character, and leaves no upper-case ASCII letter |
| Text.Contains | aws.py:335 | Python's `needle in hay`: a contained needle is no longer than the haystack, and the empty needle is in every string |
| Text.ContainsIff | aws.py:335 | `needle in hay` holds exactly when the needle occurs at some position of the haystack |
| Text.Strip | oakridge_4runner.py:10 | the result is the slice of the input after its leading whitespace; everything after it is whitespace; it neither starts nor ends with whitespace; it is empty only for an all-whitespace input |
| Text.StripIdempotent | oakridge_4runner.py:10 | stripping twice equals stripping once |
| Text.LastSegment | aws.py:428 | the result is a suffix of the id with no '/', preceded by a '/' unless it is the whole id |
| Aws.TopicsStop | aws.py:69-75 | the index of the first reply that raised or carried no truthy NextToken; all earlier replies answered with one |
| Aws.Tokens | aws.py:69-74 | the first call sends no token and each later one the previous reply's NextToken, all of those replies having answered |
| Aws.AppendTopics | aws.py:64-66 | the result is the list extended by the topics' ARNs, in order |
| Aws.Topics | aws.py:60-80 | the first request has no token and each later one sends the previous reply's NextToken; requests stop at the first reply without one; the result is every page's ARNs concatenated in page order, or None if a call raised |
| Aws.EC2.constructor | aws.py:174-176 | the region cache starts empty |
| Aws.EC2.Regions | aws.py:185-190 | the regions are fetched exactly when the cache is empty; a fetched list is cached and returned, a fetch that raises returns None and leaves the cache empty; otherwise the cached list is returned and the cache is unchanged |
| Aws.RegionsTwice | aws.py:185-190 | once a call has returned a list, the next call does not fetch and returns the same list; after a call that raised, the next one fetches again |
| Aws.Instances | aws.py:228-243 | the result is the (InstanceId, InstanceType) pairs of all reservations flattened in order; it is empty when 'Reservations' is absent, and None when the call raised |
| Aws.GetInstanceTags | aws.py:250-260 | one (Key, Value) pair per tag, same length and order, with '' for a missing field; None when the call raised |
| Aws.NameMatches | aws.py:371 | with no prefix every name matches; a matching prefix is no longer than the name |
| Aws.NameMatchesAnywhere | aws.py:334-335 | the prefix filter is a case-insensitive substring test at any position, not only at the start |
| Aws.EmptyPrefixMatchesAll | aws.py:334-335 | an empty prefix keeps every name |
| Aws.CollectPages | aws.py:329-330 | extending by every page gives the pages concatenated in order |
| Aws.KeepMatching | aws.py:333-336 | the loop keeps exactly the items passing the test, in order |
| Aws.NoPrefixKeepsAll | aws.py:331-332 | with prefix None the filter keeps everything collected |
| Aws.ListPolicies | aws.py:324-339 | None if any page raised; otherwise all pages' policies in order, filtered by the name test |
| Aws.ListRoles | aws.py:341-356 | None if any page raised; otherwise all pages' roles in order, filtered by the name test |
| Aws.ListedPoliciesAreMatches | aws.py:333-337 | a policy is listed exactly when it was collected and its name matches; the listing keeps the collected order |
| Aws.ListedRolesAreMatches | aws.py:350-354 | a role is listed exactly when it was collected and its name matches; the listing keeps the collected order |
| Aws.Summaries | aws.py:372-378 | one summary per group, same length and order |
| Aws.ListLogGroups | aws.py:366-381 | None when the call raised; otherwise the Name/ARN/Creation summaries of exactly the matching groups, in order |
| Aws.NormalizeZoneName | aws.py:420-421 | a non-empty name is either unchanged or gains one '.'; it is unchanged exactly when it already ends with '.'; the result always ends with '.' |
| Aws.NormalizeZoneNameIdempotent | aws.py:420-421 | normalising twice equals normalising once |
| Aws.FirstZoneMatch | aws.py:425-428 | the position of the first zone whose Name equals the name, or None when no zone has it |
| Aws.FirstZoneMatchAt | aws.py:425-428 | a matching zone with no earlier match is the one found |
| Aws.GetZoneIdByName | aws.py:418-432 | an empty name is an error; otherwise the result is the last '/'-segment of the Id of the first zone with the normalised name, in page order then in-page order; it is None when no zone read before the first failing page matches |
| Aws.FoundZone | aws.py:426-428 | the zone the loop stops at is the first match over all pages read |
| Aws.NoneFound | aws.py:429-432 | when the loop ends without a match, the specification gives None |
| Aws.UpsertBatch | aws.py:474-489 | exactly one change: UPSERT of an A record set with the given name, TTL 300 and a single value, plus the comment |
| Aws.SetARecord | aws.py:462-497 | a change request is sent exactly when the zone id is present, for that zone and with the one-UPSERT batch of the record name, value and comment; the service's response is returned exactly when the request was sent and answered, None otherwise |
| Aws.SetARecordTakesEffect | aws.py:474-492 | the request sent for a zone id carries only UPSERTs, and applying its batch leaves the record name's A record holding exactly the new value |
| Aws.UpsertReadBack | aws.py:474-489 | after the batch the name's A record holds exactly the new value with TTL 300, whether or not it existed; no other record set changes |
| Aws.UpsertIdempotent | aws.py:474-489 | applying the batch twice leaves the zone as applying it once |
| Slack.LastFour | slack.py:23 | the token's last four characters, or all of a shorter token |
| Slack.Bot.constructor | slack.py:20-24 | a non-empty token keeps only its last four characters |
| Slack.Bot.New | slack.py:20-23 | an empty token is an error; any other token gives a bot holding its last four characters |
| Slack.Bot.Display | slack.py:26-27 | the display string is the fixed prefix, then the last four characters, then ')' |
| Slack.UsersStop | slack.py:40-46 | the index of the first reply that raised or has a missing or empty next_cursor |
| Slack.MemberPages | slack.py:42 | each page gives its members, or [] when 'members' is absent |
| Slack.Cursors | slack.py:39-44 | the first call sends no cursor and each later one the previous reply's next_cursor, all of those replies having answered |
| Slack.FetchAllUsers | slack.py:38-46 | pages are requested until the first missing or empty next_cursor, each with the previous cursor; the result is every page's members in page order, or an error when a call raised |
| Slack.Bot.ListUsers | slack.py:34-53 | the first request has no cursor and each later one sends the previous next_cursor; requests stop at a missing or empty cursor; the result is every page's members concatenated in order, through the filters the flags leave on, as names when asked |
| Slack.NamesOf | slack.py:51-52 | the names have the same length and order as the users |
| Slack.Survivors | slack.py:47-50 | the filters never add users: every survivor was listed; with both flags set nothing is removed; a filter left on removes every deleted user, or every bot |
| Slack.DefaultFlagsKeepActiveHumans | slack.py:47-50 | with default flags a user is kept exactly when it was listed and is neither deleted nor a bot |
| Slack.SurvivorsKeepOrder | slack.py:47-50 | whatever the flags, the filters only remove users and keep the survivors' order |
| Slack.IncludeFlagsDisableFilters | slack.py:47-50 | setting a flag to True switches its filter off |
| Slack.FirstNamed | slack.py:58-60 | the position of the first user with the name, or None when no user has it |
| Slack.FirstNamedAt | slack.py:58-60 | a user with the name and no earlier such user is the one found |
| Slack.Bot.Username2Id | slack.py:55-61 | the id of the first active non-bot user with the name, or None when there is none; an error when the listing raised |
| Slack.Bot.SendDmTarget | slack.py:74-77 | an unknown name is an error before any conversation is opened; otherwise the user id the conversation is opened with |
| GoDaddy.RecordsUrl | godaddy.py:24 | the URL is the API base, then the registered domain, then `/records/A/`, then the subdomain |
| GoDaddy.RecordsUrlRoundTrip | godaddy.py:23-24 | the record URL determines the registered domain and subdomain it was built from |
| GoDaddy.APayload | godaddy.py:38-43 | the PUT payload is one record: data = address, name = subdomain, ttl 1800, type 'A' |
| GoDaddy.AuthorizationHeader | godaddy.py:15 | the value is `sso-key `, the key, ':' and the secret, in that order |
| GoDaddy.AuthorizationRoundTrip | godaddy.py:15 | the Authorization value `sso-key {key}:{secret}` gives back key and secret |
| GoDaddy.Client.constructor | godaddy.py:13-16 | the session headers gain Authorization and content-type and keep every other entry |
| GoDaddy.Client.GetDnsARecords | godaddy.py:18-29 | an invalid domain is an error with no request; otherwise one GET of the record URL, which succeeds with the response exactly when it answered with an ok status; a raised request is an error, and so is any other status |
| GoDaddy.Client.SetDnsARecord | godaddy.py:31-47 | the domain is checked, then the address, each failing with no request; otherwise one PUT of the one-record payload, which succeeds exactly when it answered with an ok status; a raised request is an error |
| GoDaddy.Client.DeleteDnsARecord | godaddy.py:49-59 | an invalid domain is an error with no request; otherwise one DELETE, which succeeds exactly when it answered with an ok status or 404; a raised request is an error |
| GoDaddy.ValidationPrecedesRequests | godaddy.py:18-59 | no operation sends a request for an invalid domain, the PUT none for an invalid address, and each sends at most one |
| GoDaddy.SameRecordUrl | godaddy.py:23-53 | GET, PUT and DELETE of one name target the same URL under the API base |
| GoDaddy.NotFoundIsSuccessOnlyOnDelete | godaddy.py:26-57 | an answered 404 is success for DELETE and an error for GET and PUT |
| GoDaddy.RequestsCarryCredentials | godaddy.py:13-16 | every request carries the session's Authorization header |
| DomainAvailability.StopAt | is_domain_available.py:25-31 | the index of the first request that raised or was answered with 200; all earlier ones were answered with another status |
| DomainAvailability.IsAvailable | is_domain_available.py:13-40 | one request per reply up to and including the first that raised or was answered with 200; a 200's 'available' field is returned, a raise gives None; one tick before the first request; before each later one, ten ticks per second of the previous response's retryAfterSec, or none when it is absent |
| DomainAvailability.AvailabilityIsFinalReply | is_domain_available.py:25-37 | `is_available` raises exactly when some request raised before any 200, and returns True exactly when some 200 with a true 'available' came before any raise |
| DomainAvailability.TwoLetterAi | is_domain_available.py:47-49 | 676 names; name n is letters n/26 and n%26 followed by '.ai' |
| DomainAvailability.ScanTwoLetterAi | is_domain_available.py:46-51 | the scan raises exactly when `is_available` raises for some name; otherwise `ok` is exactly the available names, in checking order |
| DomainAvailability.TwoLetterAiSorted | is_domain_available.py:47-49 | names are checked in strictly increasing lexicographic order |
| DomainAvailability.TwoLetterAiComplete | is_domain_available.py:47-49 | every two-letter `.ai` name is checked |
| DomainAvailability.ScanKeepsAvailableInOrder | is_domain_available.py:46-51 | a name is kept exactly when it is checked and available; kept names keep the checking order |
| Oakridge.MyPublicIp | oakridge_4runner.py:6-14 | None exactly when the request raised or the status is 4xx/5xx; otherwise the slice of the body after its leading whitespace that neither starts nor ends with whitespace and is followed only by whitespace (empty only for an all-whitespace body) |
| Oakridge.PublicIpIsStripped | oakridge_4runner.py:10 | the returned address is already stripped |
| Oakridge.Reconcile | oakridge_4runner.py:30-52 | the DNS lookup comes first; exit 1 exactly when either address is missing or, on drift, the Route53 client cannot be built; only the lookup runs when DNS fails; Route53 is touched exactly when both addresses exist and differ and the client was built |
| Oakridge.DriftMakesOneUpsert | oakridge_4runner.py:46-52 | on drift, with the Route53 client built, the run exits 0 after exactly one set_a_record, made after the zone lookup of 'oakridge.io' with its zone id; when the zone was found it sends the UPSERT of the hostname to the public address for that zone, and otherwise sends nothing |
| Oakridge.ClientFailureStopsBeforeRoute53 | oakridge_4runner.py:48-51 | on drift, a Route53 client that cannot be built (for example a missing profile) ends the run with exit 1 before any zone lookup or record change |
| Oakridge.LookupFailureStopsFirst | oakridge_4runner.py:32-35 | a failed lookup exits 1 before the public address is asked for |
| AutoUpdate.MyCurrentIpv4 | auto_update.py:8-12 | the 'ip' field on an ok response; None, where the script raises, otherwise |
| AutoUpdate.GodaddyIpFor | auto_update.py:14-22 | sends the GET of get_dns_A_records; its error propagates; otherwise the data of the first record, or None exactly when there are no records |
| AutoUpdate.MainAsWritten | auto_update.py:38 | every run ends in an error before any request |
| AutoUpdate.Main | auto_update.py:34-45 | the GoDaddy lookup, then the public address; an error in either ends the run; the record is set, with the public address, exactly when the GoDaddy address differs from it; the run then ends updated when the PUT succeeds, and otherwise in the PUT's error |
| AutoUpdate.UpdateExactlyOnDrift | auto_update.py:41-45 | when both lookups succeed, a PUT of the public address is sent exactly when GoDaddy has no record or a different one; otherwise nothing is updated |
| AutoUpdate.MissingMethodBlocksUpdate | auto_update.py:38-45 | when GoDaddy holds no record, the script as written still fails, while the intended script sets the record |

## Left out

- `convert_dict_values` (aws.py:11-25) `eval`s arbitrary strings, so it cannot be modelled. `SNS.one_topic`, which uses it, is left out with it.
- boto3, requests, slack_sdk and `socket.gethostbyname` are not modelled. For each call the modelled code makes, the response and whether the call raises are inputs. That includes building the Route53 client in oakridge_4runner.py (boto3 session, profile and client) and the session plus `get_available_regions` in `EC2.regions`.
- Building the SNS, EC2, IAM, Logs and Route53 clients in their constructors (aws.py:28-30 and each subclass) is not modelled. The modelled operations of those classes start from a client that exists.
- HTTP sessions, authentication on the wire and the availability endpoint's URL and headers are not modelled.
- `validators.domain`, `validators.ipv4` and `tldextract.extract` are uninterpreted input functions (`GoDaddy.Oracles`). No public-suffix logic is modelled.
- `raise (f"...")` in godaddy.py raises a TypeError in Python 3. It is modelled only as an error that comes before any request.
- Text.Lower: lowers ASCII letters only, while Python's `str.lower` also lowers other Unicode letters.
- DomainAvailability.IsAvailable: `retryAfterSec` is a whole, non-negative number of seconds. A negative value, or one whose ten-fold is not a whole number (such as 0.15), makes the source's `while cnt` loop run forever, and that case is not modelled. A fractional value whose ten-fold is whole (such as 1.5) waits the same as the model's ticks, but is not representable here.
- DomainAvailability.IsAvailable and Slack.Bot.ListUsers: the loops have no bound in the source, so the input must contain a stopping reply. Aws.Topics has the same requirement.
- Sleeps are counted in 0.1 s ticks. Wall-clock time is not modelled.
- The default comment of `set_a_record` is evaluated from the clock. The comment is an input.
- `iplookup`'s handler calls the logger object, which raises. The reconcile decision takes the lookup's outcome as an optional input and does not claim that `iplookup` returns None.
- Aws.Topics, Aws.Instances and Aws.ListLogGroups: a response missing a required key such as 'Topics', 'Instances' or 'logGroupName' raises a KeyError that the method catches. The model's response types always carry those fields, so that path is not modelled.
- The `filter` argument of `EC2.instances` is passed to boto3 unchanged, and `running_instances` only supplies one. Both are left out.
- `Route53.get_a_record` and `Slack.Bot.list_channels` only forward one call. `Slack.Bot.send_msg_to_channel` and the `conversations_open`/`chat_postMessage` part of `send_dm_to_user` are also out. Only the lookup guard in front of them is modelled.
- Thin forward-and-log wrappers in aws.py are left out: topic, rule, target, role, policy and log-group create/delete, `subscribe`, `enable_flow_logs` and `describe_one_log_group`.
- The `MSG` schema, stdout progress dots, `print`, the logging calls, `log.py` and `setup_syslog` are left out.
- `ChatBot` and `cfg` in `is_domain_available.py` do not exist in the repository, so the Slack notification after the scan is left out.
- `or1_iooi_life.py` is not part of this model.
- GoDaddy.Client.constructor: header names are compared exactly, while the session's header dictionary ignores case. A case-variant default such as 'Content-Type' would be overwritten by the source but is kept beside 'content-type' here; the default session headers have no such variant.
- AutoUpdate.Main: GoDaddy's API key and secret come from the environment. Here the client is an input.

## Findings

| source | as written | input that shows it | evidently intended | confidence | as-written member | corrected member |
|---|---|---|---|---|---|---|
| auto_update.py:38 | `g.ip_for(target)` calls a method the GoDaddy class does not define, so every run stops with an AttributeError before any request | any run; for example GoDaddy holds no A record for the target and both services answer ok, where an update is due | `godaddy_ip_for(target)`, the function defined at auto_update.py:14 | high; not executed | AutoUpdate.MainAsWritten | AutoUpdate.Main |
